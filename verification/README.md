# Overlord in Dafny

Overlord runs Redis and memcache clusters: a platform places the nodes of a cluster on hosts, a
proxy stands between clients and nodes, and small tools move slots and data between clusters. This
project models the parts of it that decide something and proves what they are for.

* **Placing a cluster.** `HostPairing`, `HostFill`, `ChunkPlan` and `ChunkAllocator` are the chunk
  allocator: the levelling fill, the loop that drains the largest host against its least-linked
  peer (with the branch that bumps the link table and tries again), ports, and the wiring of
  slaves to masters on the other host of their chunk.
* **The proxy's data path.** `ReadBuffer`, `Decimal`, `Text`, `Resp`, `RespReader`, `Commands`,
  `Messages` and `ProxyConn` go from bytes on a connection to requests; `Merging` goes back.
  `Sharding` and `Pipeline` prove that clients cannot tell the sharded cluster from one server,
  `ClientSession` puts it all together, from the bytes a client sends to the bytes it gets, and
  `OneServer` says it in the client's words: names in any spelling, keys and values as bytes.
  `NodePipe` is the batching pipe to one backend as a transition system, `PipeOutcomes` says
  which messages it fails and that it serves the others, `Backends` shows that pipes keep the
  order sharding needs, and `NodeConn` reads replies however they arrive.
* **Routing.** `Ketama` and `RingRouting` are the hash ring and the pingers that take nodes out and
  put them back. `PipeTable` is the life of node pipes across topology changes, and `Topology`
  goes from the text of a topology to the pipes.
* **Slots.** `Slots`, `Reshard`, `ReshardPlans` and `FillSlot` divide, even out and complete the
  16384 slots. `Words`, `NodesConf`, `ConfRoundTrip` and `ConfParser` print the node lines of
  nodes.conf and parse them again as the proxy does. `ClusterPlan` goes the whole way from offers
  to the proxy's slot table.
* **Dumps.** `Lzf`, `Rdb`, `RdbDump` and `RdbReader` read a Redis dump as a stream of callbacks.

`Common` holds the types and facts the modules share. `dafny verify dfyconfig.toml` checks everything.

How things are represented: bytes of the Redis protocol are characters, bytes of dumps are numbers
below 256; Go's `int` is unbounded except where the code depends on its width (`Btoi`, 32-bit
indices and products in the dump reader); `float64` is `real`; hash functions are parameters;
what the network, the clock or another goroutine contributes is a parameter or an event; a panic
is an outcome of its own. Loops over Go maps take their elements in an arbitrary order. Sorting is
by its specification.

Where the code and its documentation, names or purpose disagree, the model follows the code; the
exact condition is proved for all inputs, with a concrete input beside it:

* `byCountDesc` sorts ascending, so the smallest host comes first; `findMinHrs` tests the capacity
  of the current best host, not of the one it looks at, and falls back to host 0. The fill is
  therefore level only up to the smallest host's capacity and then puts everything on that host
  (`FillShare`); it respects all capacities exactly when the smallest host can hold the level
  share (`FillFitsExactly`). Otherwise `Chunks` refuses, panics or overloads that host, and
  `Overflows` says which. Ten masters on hosts with room for 4, 16, 16 and 16 nodes show it:
  `SmallHostPanics`, `SmallHostOverloaded`.
* The convergence argument in doc/chunk.text leaves out the branch that bumps the link table and
  retries; `DeficitBump` and `NextPair` supply it.
* `divideSlots` treats the end of a range as exclusive when it advances and as inclusive when it
  stores it, so all but the last master get one slot too many; `NonEmptyExactly` says what that
  costs the last one, and that some master gets nothing from 129 masters on
  (`NothingForThe129th`).
* `Decode` drops the messages it has already decoded when a later one is malformed. How a stream
  is read, cuts and slots together, then matters exactly if there is a message in front of the
  malformed item (`ReadingMattersExactly`). If every call offers at least `k` slots, it matters
  exactly if there are that many messages in front, or one of them can arrive before the
  malformed item (`CuttingMattersExactly`). `PING` followed by `*x` is such a stream with the two
  slots a connection starts with (`PingMayBeDropped`).
* Two nodes of the hash ring can have a tick in the same place, and then the sort decides.
  Routing is a function of the ring exactly if that does not happen (`OneOwnerExactly`), which is
  what the statements about lookups ask of the ring at hand. Host names are cut to 64 characters
  before they are hashed, so two longer names that begin alike always collide
  (`LongNamesCollide`).
* Strings that a dump stores as a negative number of eight bits are printed without their sign;
  all other stored numbers are right (`IntReadExactly`, `MinusOneLost`).
* Expiries in seconds are multiplied in 32 bits; `SecondsReportedExactly` says for which of them the
  result is right, and `SecondsLost` gives one of 2023 that is not.
* The whole generated nodes.conf, with its epoch line, is refused by the proxy's parser
  (`WholeFileRejected`); the agreement is about the node lines.
* `Update` with a new address listed twice loses the first of the two pipes without closing it;
  `PipeTable.Table.Update` says exactly when, and `TwiceListed` does it.
* `fillSlot` counts listed slots, not distinct ones; `FillCoversExactly` says when it still covers
  every slot, and `TwiceListedLeavesAHole` when it does not.

## Model

| member | source | states |
|---|---|---|
| `HostPairing.RoomBesideLink` | doc/chunk.text:71-228 | while no host has more than half of what is left, a third host beside a largest one and its live peer leaves room for one more link |
| `HostPairing.PairKeepsDrainable` | platform/chunk/chunk.go:345-350 | linking a largest host to any peer with two nodes left keeps all residuals even and non-negative, their sum divisible by four and none above half the sum |
| `HostPairing.LivePeerExists` | platform/chunk/chunk.go:333-344 | under that invariant a host with nodes left always has a peer with at least two left |
| `HostPairing.DeficitBump` | platform/chunk/chunk.go:340-344 | bumping the link of an exhausted peer lowers the deficit of the chosen host's row by one: the measure by which the retry branch ends |
| `HostPairing.MaxHost` | platform/chunk/chunk.go:117-127 | the first host with the most nodes left |
| `HostPairing.FindMinLink` | platform/chunk/chunk.go:220-236 | the first least-linked column of a row other than the row itself |
| `HostPairing.IndexByName` | platform/chunk/chunk.go:318-321 | distinct hostnames map to their positions |
| `HostPairing.BumpLink` | platform/chunk/chunk.go:341-348 | both cells of a link are raised by one and no other row changes |
| `HostPairing.Retry` | platform/chunk/chunk.go:340-344 | a retry lowers the deficit against a peer that still has nodes |
| `HostPairing.TakeTwoEach` | platform/chunk/chunk.go:349-350 | two nodes leave each of the two hosts and no other host changes |
| `HostPairing.NextPair` | platform/chunk/chunk.go:334-344 | the search ends, at a first largest host and, unless that host is drained, at its first least-linked peer, which has two nodes left |
| `HostPairing.PairConserves` | platform/chunk/chunk.go:345-350 | what a host has left plus two nodes for each of its links is what it started with |
| `HostPairing.ProgressStep` | platform/chunk/chunk.go:333-351 | one link keeps drainability and conservation and takes four nodes off the total |
| `HostPairing.DrainIntoLinks` | platform/chunk/chunk.go:333-351 | the loop ends; every host is drained to exactly zero, has half its nodes as links, links join different hosts, and four times the links is the total; with and without the bump on success |
| `HostFill.FindMinHrs` | platform/chunk/chunk.go:204-218 | the first host with the fewest nodes if any host qualifies, else host 0 |
| `HostFill.FillShare` | platform/chunk/chunk.go:171-218 | closed form of the fill: level shares up to the smallest host's capacity, everything above that on host 0 |
| `HostFill.ScanPicks` | platform/chunk/chunk.go:204-218 | the scan picks the host the closed form picks, at every step |
| `HostFill.DpFillHostRes` | platform/chunk/chunk.go:171-202 | the filling loop computes the closed form; all counts are even and they sum to the nodes asked for |
| `HostFill.FillFitsExactly` | platform/chunk/chunk.go:171-218 | the fill respects every capacity if and only if the smallest host holds twice the rounded-up share of masters |
| `HostFill.FillOverflows` | platform/chunk/chunk.go:171-218 | a fill that does not fit leaves every host at the smallest capacity and puts all the rest on host 0 |
| `HostFill.FillIsLevel` | platform/chunk/chunk.go:171-218 | within that capacity all hosts are within two nodes of each other |
| `HostFill.LevelShareBelowHalf` | platform/chunk/chunk.go:298-305 | of all numbers of hosts and masters allowed, a level fill fails the distribution check only for three hosts and four masters |
| `ChunkPlan.Links2Chunks` | platform/chunk/chunk.go:262-287 | each link becomes a chunk on its two hosts with each host's next two ports; it panics exactly when a host runs out of ports on the way |
| `ChunkPlan.PortsSuffice` | platform/chunk/chunk.go:262-287 | no host runs out of ports on the way if and only if each has two per link in all |
| `ChunkPlan.AddressesDistinct` | platform/chunk/chunk.go:262-287 | no host and port is given to two nodes |
| `ChunkPlan.PlanFromLinks` | platform/chunk/chunk.go:262-287 | every chunk spans two hosts with a master and a slave on each, and each host carries two nodes per link |
| `ChunkPlan.SetupSlaveOf` | platform/job/create/server_cluster.go:170-181 | run ids are filled in and the slave of each half follows the master of the other half; names, ports, roles and slots stay |
| `ChunkPlan.WireChunk` | platform/job/create/server_cluster.go:172-180 | the same for one chunk |
| `ChunkPlan.SlaveIsAcross` | platform/job/create/server_cluster.go:170-181 | a master and any slave that follows it are on different hosts |
| `ChunkPlan.AnyHostMayFail` | platform/job/create/server_cluster.go:170-181 | whichever host is lost, every shard keeps a copy |
| `ChunkAllocator.MapIntoHostRes` | platform/chunk/chunk.go:140-158 | each offer becomes a host with the nodes its memory, cpu and ports can run, rounded down to even |
| `ChunkAllocator.CapacityDecides` | platform/chunk/chunk.go:140-155 | an even number of nodes is within an offer's capacity if and only if the offer has that many ports and that much memory and cpu |
| `ChunkAllocator.CapacityIsLargest` | platform/chunk/chunk.go:140-155 | the capacity is even, the offer has its memory, cpus and ports, and lacks one of them for two nodes more |
| `ChunkAllocator.MapIntoPortsMap` | platform/chunk/chunk.go:160-169 | each host is mapped to the ports of its offer |
| `ChunkAllocator.GetHosts` | platform/chunk/chunk.go:36-47 | exactly the hostnames of the offers |
| `ChunkAllocator.SortByCount` | platform/chunk/chunk.go:75-86 | the same hosts in ascending order of capacity |
| `ChunkAllocator.CheckIfEnough` | platform/chunk/chunk.go:289-296 | true exactly when the capacities add up to the need |
| `ChunkAllocator.CheckDist` | platform/chunk/chunk.go:298-305 | true exactly when no host has half of the nodes or more |
| `ChunkAllocator.CheckChunk` | platform/chunk/chunk.go:438-465 | the first failing check decides the error; otherwise the hosts are those of the offers in ascending order of capacity |
| `ChunkAllocator.PairAndPlace` | platform/chunk/chunk.go:318-355 | a drainable fill becomes a well-formed plan with the filled number of nodes on each host if and only if no host is given more nodes than its offer has ports, and panics otherwise |
| `ChunkAllocator.Chunks` | platform/chunk/chunk.go:308-355 | the whole decision: which check fails first; a plan whose nodes need no more memory, cpus and ports than each offer has if and only if every offer has the resources of the level share, and then level; beyond that, refused if and only if the overload is half of all nodes, else one smallest offer gets exactly the overload and the others their level, or a panic if that offer has fewer ports; plans have half as many chunks as masters, span hosts, stay below half on any host and use offered ports once |
| `ChunkAllocator.ShareIsEnough` | platform/chunk/chunk.go:289-296 | where every offer has the resources of the level share, the check of the total never refuses |
| `ChunkAllocator.PlanInResources` | platform/chunk/chunk.go:308-355 | a plan is within the capacities if and only if the nodes on each host need no more memory, cpus and ports than its offer has |
| `ChunkAllocator.Distribute` | platform/chunk/chunk.go:308-355 | the part behind the checks decides all of that |
| `ChunkAllocator.HalfRule` | platform/chunk/chunk.go:298-305 | fewer than four masters never pass the half rule, a fill at the level share always does, and one beyond it exactly if the overload is less than half |
| `ChunkAllocator.OverflowingPorts` | platform/chunk/chunk.go:262-287 | beyond the level share only the overloaded host, a smallest one, can be short of ports |
| `ChunkAllocator.SmallHostPanics` | platform/chunk/chunk.go:171-218 | ten masters on hosts with 4, 16, 16 and 16 ports: all checks pass, the level share does not fit and the outcome is a panic |
| `ChunkAllocator.SmallHostOverloaded` | platform/chunk/chunk.go:171-218 | with the ports but not the memory, the small host is planned eight nodes where it can run four |
| `Decimal.Btoi` | pkg/conv/conv.go:8-36 | agrees with decimal parsing within 64 bits on every input |
| `Decimal.ItoaRoundTrip` | pkg/conv/conv.go:8-36 | printed numbers parse to themselves |
| `Decimal.NoLeadingZero` | pkg/conv/conv.go:8-36 | printed numbers have no zero in front |
| `Resp.ParseExtends` | proxy/proto/redis/resp.go:104-194 | an item decoded, or refused, from some bytes is decoded, or refused, the same way when more bytes follow |
| `Resp.RoundTrip` | proxy/proto/redis/resp.go:104-249 | decoding the encoding of any well-formed item of any nesting, followed by anything, gives the item back and consumes exactly the encoding |
| `Resp.StoredEncodesToWire` | proxy/proto/redis/resp.go:196-249 | the item stored for a protocol value is encoded as the Redis serialization protocol writes that value, nil and empty strings and arrays included |
| `Resp.WireRoundTrip` | proxy/proto/redis/resp.go:104-249 | decoding the protocol's bytes of a value gives the item stored for it and consumes just them |
| `Resp.StoredInjective` | proxy/proto/redis/resp.go:63-102 | different protocol values are stored as different items |
| `Resp.NotANumber` | proxy/proto/redis/resp.go:149-194 | a bulk string or array whose length is no 64-bit number is refused |
| `Resp.NegativeArray` | proxy/proto/redis/resp.go:172-194 | a negative number of elements other than -1 is an array without elements |
| `Resp.NegativeBulk` | proxy/proto/redis/resp.go:149-170 | exactly which negative lengths of bulk strings are a panic, and that the others cut the string out of the header line |
| `Resp.HugeBulk` | proxy/proto/redis/resp.go:160-170 | a length whose size computation wraps around 64 bits is a panic |
| `Commands.InlineIsArray` | proxy/proto/redis/resp.go:127-147 | words on a line, whatever white space between them, are read as the array of those words in order |
| `Commands.UpdateToUpper` | pkg/conv/conv.go:49-56 | in place, every lower-case letter goes down by 32 and nothing else changes |
| `Commands.UpperFindsName` | pkg/conv/conv.go:49-56 | upper-casing a word gives a name if and only if the word is an upper and lower case spelling of it |
| `Commands.PayloadOfBulk` | proxy/proto/redis/request.go:142-146 | behind the length line are exactly the bytes of the bulk string |
| `Commands.KeyOfCommand` | proxy/proto/redis/request.go:123-146 | a command is routed by the bytes of its first argument, whatever follows |
| `Commands.KeyOfEval` | proxy/proto/redis/request.go:131-140 | an EVAL is routed by the bytes of its fourth word |
| `ReadBuffer.Buffer.Grow` | pkg/bufio/buffer.go:60-65 | the buffer doubles and the unread bytes stay the same |
| `ReadBuffer.Buffer.Shrink` | pkg/bufio/buffer.go:76-83 | the unread bytes move to the front unchanged |
| `ReadBuffer.Buffer.Buffered` | pkg/bufio/buffer.go:85-88 | the number of unread bytes |
| `ReadBuffer.RoomIsPositive` | pkg/bufio/io.go:66-81 | the next read always has room for at least one byte |
| `ReadBuffer.Reader.Fill` | pkg/bufio/io.go:33-44 | what the connection hands over is appended to the unread bytes; errors stick; an empty read without error is no progress |
| `ReadBuffer.Reader.Read` | pkg/bufio/io.go:66-81 | unread bytes survive making room; an earlier error is repeated; an end of file is left for the next access to report |
| `ReadBuffer.Reader.AdvanceTo` | pkg/bufio/io.go:56-58 | the read position goes back to a mark |
| `ReadBuffer.Reader.FindLineEnd` | pkg/bufio/io.go:83-98 | the first line end in the unread bytes |
| `ReadBuffer.Reader.ReadLine` | pkg/bufio/io.go:83-98 | the first line with its end, or buffer full without moving |
| `ReadBuffer.Reader.ReadExact` | pkg/bufio/io.go:117-128 | exactly so many bytes, or buffer full without moving |
| `RespReader.Copy` | proxy/proto/redis/resp.go:80-88 | the target stands for the source afterwards, whatever it held |
| `RespReader.Decode` | proxy/proto/redis/resp.go:104-125 | decoding into a reused object over the buffer agrees with the parser of the unread bytes; short input leaves the position where it was at any depth |
| `RespReader.DecodeInline` | proxy/proto/redis/resp.go:127-147 | an inline command becomes the array of its words |
| `RespReader.DecodeBulk` | proxy/proto/redis/resp.go:149-170 | a bulk string, null or short input with the position put back |
| `RespReader.ReadBulk` | proxy/proto/redis/resp.go:160-170 | the bytes of a bulk string with its length line, or short input with the position put back before the line |
| `RespReader.DecodeArray` | proxy/proto/redis/resp.go:172-194 | an array with its elements, null or short input with the position put back |
| `RespReader.DecodeElems` | proxy/proto/redis/resp.go:182-193 | the element loop agrees with parsing so many items one after another |
| `RespReader.DecodeElem` | proxy/proto/redis/resp.go:186-191 | one element into the next reused object, with what was decoded before it kept |
| `Messages.Message.NextReq` | proxy/proto/redis/proxy_conn.go:194-204 | a pooled request is reused or a new one made; the requests before it are untouched |
| `Messages.Message.Reset` | proxy/proto/message.go:87-92 | no request is left, the pooled objects are |
| `Messages.Message.AddRequest` | proxy/proto/redis/proxy_conn.go:139-186 | one more request, an array of copies of the given parts |
| `Messages.Message.AddWhole` | proxy/proto/redis/proxy_conn.go:187-190 | one more request, a copy of the whole command |
| `Messages.SplitMSet` | proxy/proto/redis/proxy_conn.go:133-156 | one MSET request per pair, in order |
| `Messages.SplitKeys` | proxy/proto/redis/proxy_conn.go:157-186 | one request per key, in order |
| `Messages.SplitInto` | proxy/proto/redis/proxy_conn.go:130-191 | the message holds exactly the requests the command splits into, or an odd MSET is refused |
| `Messages.Batch` | proxy/proto/message.go:246-266 | sub-message i carries the very request object i of the message; sub-messages are distinct |
| `ProxyConn.ProxyConn.Skip` | proxy/proto/redis/proxy_conn.go:109-123 | items without elements are passed over until a command, short input or a failure |
| `ProxyConn.ProxyConn.DecodeMsg` | proxy/proto/redis/proxy_conn.go:109-191 | one message with the requests of the next command and the position behind it |
| `ProxyConn.ProxyConn.Decode` | proxy/proto/redis/proxy_conn.go:87-107 | up to as many messages of the unread bytes as there are slots, in order, each slot's message holding its own command's requests and sharing no object with another; reads only if the last call ran dry; an error hands out nothing |
| `ProxyConn.ProxyConn.Fill` | proxy/proto/redis/proxy_conn.go:95-106 | the slot loop fills the first messages and notes whether it ran dry |
| `ProxyConn.ProxyConn.DecodeSlot` | proxy/proto/redis/proxy_conn.go:95-104 | decoding into one slot leaves the messages of the other slots as they were |
| `ProxyConn.NextCommandExtends` | proxy/proto/redis/proxy_conn.go:109-123 | later bytes never change a command already there |
| `ProxyConn.StrayPassed` | proxy/proto/redis/proxy_conn.go:109-123 | a stray reply or empty array in front of a command changes nothing |
| `ProxyConn.AllExtends` | proxy/proto/redis/proxy_conn.go:87-107 | the messages of a longer stream are those of its beginning and then more |
| `ProxyConn.TakeThenAll` | proxy/proto/redis/proxy_conn.go:87-107 | taking k messages and then the rest is taking all |
| `ProxyConn.RunKeepsTrack` | proxy/proto/redis/proxy_conn.go:87-107 | over any sequence of calls, what was handed out and what is still in the buffer make up the stream's messages |
| `ProxyConn.FragmentationIndependence` | proxy/proto/redis/proxy_conn.go:87-123 | however a stream is cut into reads and whatever slice sizes are passed, the messages handed out are a prefix of those of the whole stream, and all of them once the connection waits |
| `ProxyConn.SameStreamSameMessages` | proxy/proto/redis/proxy_conn.go:87-123 | two cuttings of one stream give the same messages |
| `ProxyConn.SlotsMatter` | proxy/proto/redis/proxy_conn.go:95-104 | a malformed stream with messages in front, all of it in one read, is handed out in full or not at all depending on the slots |
| `ProxyConn.ReadingMattersExactly` | proxy/proto/redis/proxy_conn.go:87-107 | over all streams: reading to the end hands out the same messages whatever the reads and the slots if and only if there is no malformed item, or one before the first message |
| `ProxyConn.ReadsDiffer` | proxy/proto/redis/proxy_conn.go:98-104 | the messages of a beginning are handed out if the malformed item arrives after them and dropped if it arrives with them |
| `ProxyConn.QuietRun` | proxy/proto/redis/proxy_conn.go:87-107 | with more slots than messages, a stream none of whose messages can arrive before the malformed item hands out nothing, however it is cut |
| `ProxyConn.CuttingMattersExactly` | proxy/proto/redis/proxy_conn.go:87-107 | over all streams and all k: calls that offer at least k slots each can hand out different messages of a stream read to its end if and only if it is malformed behind a message, and there are k messages in front or one can arrive before the malformed item; with k above the number of messages this is about the cutting into reads alone |
| `ProxyConn.PingMayBeDropped` | proxy/proto/redis/proxy_conn.go:98-104 | with two slots, a PING is dropped if a malformed array header arrives in the same read and handed out if it arrives in the next |
| `Sharding.Commute` | proxy/forwarder.go:101-123 | requests for different keys commute in effect and reply |
| `Sharding.MoveToFront` | proxy/proto/pipe.go:55-83 | a request that no earlier one of its connection precedes may run first without changing replies or data |
| `Sharding.NodeStep` | proxy/forwarder.go:101-123 | a request on its node is the request on the united data |
| `Sharding.AnyOrder` | proxy/proto/pipe.go:55-83 | every execution that keeps each connection in order gives the replies and the data of running the requests one by one |
| `Merging.EncodeMessage` | proxy/proto/redis/proxy_conn.go:206-280 | OK, the sum, the joined array or the single reply, by the merge type |
| `Merging.WriteCount` | proxy/proto/redis/proxy_conn.go:240-257 | the loop writes the sum, or refuses at the first reply that is no number |
| `Merging.WriteJoined` | proxy/proto/redis/proxy_conn.go:259-280 | the loop writes the array of the replies |
| `Merging.GetsRead` | proxy/proto/redis/proxy_conn.go:157-172 | the GETs of an MGET reply with the values of the keys and change nothing |
| `Merging.ExistsCounts` | proxy/proto/redis/proxy_conn.go:240-257 | the sum of the EXISTS replies counts a repeated key every time, as one server does |
| `Merging.DelsRemove` | proxy/proto/redis/proxy_conn.go:240-257 | the DELs remove the keys and their replies sum to the number of distinct keys removed |
| `Merging.MSetSets` | proxy/proto/redis/proxy_conn.go:133-156 | the MSETs of the pairs set what the whole MSET sets, the last of a repeated key winning |
| `Merging.SplitThenMerge` | proxy/proto/redis/proxy_conn.go:130-280 | split, run and merged, a command has the effect and the reply bytes of one server |
| `Pipeline.InOrder` | proxy/proto/redis/proxy_conn.go:206-232 | the requests of a pipeline run in issue order give each command its own merged reply, as one server would |
| `Pipeline.ShardingIsTransparent` | proxy/forwarder.go:93-123 | any pipeline, any routing, any interleaving that keeps connections in order: the bytes written to the client and the united data are those of one unsharded server |
| `ClientSession.DecodedAreMessages` | proxy/proto/redis/proxy_conn.go:87-191 | the messages of a stream are the requests of its commands |
| `ClientSession.SessionLikeOneServer` | proxy/forwarder.go:93-123 | at any point of a session, however the stream was cut, any sharding and any order that keeps connections in order answer the messages handed out with the bytes of one unsharded server for the first commands of the stream, and leave its data |
| `ClientSession.SentIsDecoded` | proxy/proto/redis/resp.go:104-249 | commands sent in the wire format are the commands of the stream |
| `ClientSession.BytesInBytesOut` | proxy/proto/redis/proxy_conn.go:87-280 | a client that sends commands gets, byte for byte, one server's answers to them |
| `OneServer.AnySpelling` | proxy/proto/redis/proxy_conn.go:130-191 | every command, in every spelling of its name, is split by its words: one GET per key of an MGET, one MSET per pair, one DEL or EXISTS per key, anything else whole, and an MSET with an odd number of arguments is refused |
| `OneServer.SpellingIgnored` | proxy/proto/redis/proxy_conn.go:130-131 | the bytes of a command give the same message in every spelling of its name |
| `OneServer.TelnetForm` | proxy/proto/redis/resp.go:127-147 | a command typed on one line gives the same message as its array |
| `OneServer.ServerInWords` | proxy/proto/redis/request.go:123-146 | the one server stated on stored items and the one stated on words agree: a command on one key reads and writes what is stored under the bytes of its first argument |
| `OneServer.ShardingInWords` | proxy/forwarder.go:101-123 | sharding is transparent, with the one server stated on the client's words |
| `OneServer.PipesInWords` | proxy/proto/pipe.go:55-217 | so it is with pipes and backends in between |
| `OneServer.WordsInWordsOut` | proxy/proto/redis/proxy_conn.go:87-280 | a client that sends commands, each name spelled anyhow, gets byte for byte the replies of one server that holds everything, and the nodes end with its data, whatever the reads, the sharding and the order of execution |
| `OneServer.SetThenGet` | proxy/proto/redis/request.go:123-146 | a value set under a key is read back under it |
| `OneServer.EverydayCommands` | proxy/proto/redis/request.go:231-336 | commands in mixed spelling are among those the promise is about |
| `NodePipe.StepKeepsInv` | proxy/proto/pipe.go:125-217 | every step of pushers and pipe, with any failure, keeps the invariant: one place per message, order, batch of at most 32, replies owed match the batch |
| `NodePipe.EveryRun` | proxy/proto/pipe.go:125-217 | the invariant holds after every run |
| `NodePipe.NothingLostNothingDoubled` | proxy/proto/pipe.go:54-83 | after every run each pushed message is in exactly one of channel, hand, unfinished batch or completed, has at most one Done, and without error holds the reply to its own request |
| `NodePipe.OwnStepProgresses` | proxy/proto/pipe.go:125-217 | short of rest the goroutine can always take a step, and its work left shrinks whatever fails |
| `NodePipe.ReplyIsDue` | proxy/proto/redis/node_conn.go:148-174 | while a batch waits for a reply the backend owes one |
| `NodePipe.PipeDrains` | proxy/proto/pipe.go:125-217 | left alone, the pipe comes to rest from every reachable state and then every push has had exactly one Done |
| `PipeOutcomes.FailedExactly` | proxy/proto/pipe.go:55-217 | over every run: a message completes with an error if and only if its push met a full channel, or a write, the flush or a supported read of its batch failed |
| `PipeOutcomes.SparedAreServed` | proxy/proto/pipe.go:125-205 | from every reachable state, if nothing fails any more, every message queued, in hand or in a batch not already failing completes without error, with its own answer if it is supported |
| `PipeOutcomes.PushAccepted` | proxy/proto/pipe.go:55-83 | a push is taken if and only if fewer than 1024 messages are queued, and fails its message at once otherwise |
| `PipeOutcomes.Limits` | proxy/proto/pipe.go:104-205 | in every run at most 1024 messages are queued, and a batch has at most 32 and is filled only below that |
| `PipeOutcomes.SentWhenFullOrIdle` | proxy/proto/pipe.go:133-160 | in every run a batch is sent when it has 32 messages or nothing more is queued, and not before |
| `Backends.WrittenInOrder` | proxy/proto/pipe.go:125-217 | in every run of a pipe, messages pushed in rising order are handed to the backend in rising order |
| `Backends.PipesKeepOrder` | proxy/proto/pipe.go:55-83 | whatever the runs of the pipes and the order across backends, requests of one connection run in the order they were issued |
| `Backends.ExecutionIsFifo` | proxy/proto/pipe.go:55-83 | such an execution is one the sharding theorem speaks of, with the same replies and data |
| `Backends.PipesLikeOneServer` | proxy/forwarder.go:93-123 | pipes, then backends: the client gets one server's bytes and the nodes together end with its data |
| `NodeConn.NodeConn.Read` | proxy/proto/redis/node_conn.go:148-174 | however the bytes arrive, the next reply of all that is coming, with just its bytes gone; the end of the connection, a malformed reply or a panic where there is none |
| `NodeConn.NodeConn.ReadBatch` | proxy/proto/pipe.go:165-174 | one read per request gives the replies one after another |
| `NodeConn.SentRepliesAreRead` | proxy/proto/redis/node_conn.go:148-174 | replies sent one after another are those replies |
| `Ketama.HashRing.Init` | pkg/hashkit/ketama.go:58-104 | the ring holds, sorted, exactly the ticks the nodes and weights call for |
| `Ketama.FourTicks` | pkg/hashkit/ketama.go:84-97 | every virtual host gives its node four ticks, one for each quarter of the digest of its name |
| `Ketama.RoundsByWeight` | pkg/hashkit/ketama.go:81-84 | the virtual hosts of a node are its share by weight of forty per node, as inequalities |
| `Ketama.RoundsExactly` | pkg/hashkit/ketama.go:81-84 | in whole numbers, the share rounded down, and exactly when it is rounded up instead |
| `Ketama.RoundsMonotone` | pkg/hashkit/ketama.go:81-84 | more weight is never fewer virtual hosts |
| `Ketama.OneToThree` | pkg/hashkit/ketama.go:81-84 | nodes that weigh 1 and 3 have 20 and 60 virtual hosts |
| `Ketama.HostNamesApart` | pkg/hashkit/ketama.go:85-88 | names of virtual hosts that are not cut are all different |
| `Ketama.HashRing.TicksOf` | pkg/hashkit/ketama.go:85-98 | four ticks for each virtual host of a node, from the digest of its name cut to 64 characters |
| `Ketama.SortTicks` | pkg/hashkit/ketama.go:101-103 | the same ticks in ascending order of hash |
| `Ketama.HashRing.AddNode` | pkg/hashkit/ketama.go:118-145 | a new node is appended, a known one reweighted, and the ring rebuilt |
| `Ketama.HashRing.DelNode` | pkg/hashkit/ketama.go:147-168 | the node is gone, the others keep their order and weights, and the ring is rebuilt |
| `Ketama.HashRing.GetNode` | pkg/hashkit/ketama.go:170-182 | the binary search finds what the plain scan for the first tick at or after the hash finds, wrapping to the first |
| `RingRouting.ScanFindsOwner` | pkg/hashkit/ketama.go:170-182 | the node found owns the value: its tick is nearest at or after it, or smallest of all |
| `RingRouting.OwnerUnique` | pkg/hashkit/ketama.go:170-182 | on a ring where no two nodes have a tick in one place a value has one owner |
| `RingRouting.OneOwnerExactly` | pkg/hashkit/ketama.go:170-182 | every value has one owner if and only if no two nodes of the ring have a tick in one place |
| `RingRouting.OwnerIsFound` | pkg/hashkit/ketama.go:170-182 | then a lookup finds the owner |
| `RingRouting.LongNamesCollide` | pkg/hashkit/ketama.go:86-98 | two equally weighted nodes whose names agree in their first 64 characters collide on every tick and own values together, whatever the hash |
| `RingRouting.FortyPoints` | pkg/hashkit/ketama.go:65-84 | with equal weights every node gets forty virtual hosts, however many nodes there are |
| `RingRouting.DelMovesOnlyItsKeys` | pkg/hashkit/ketama.go:147-168 | with equal weights deleting a node leaves the owner of every key of another node |
| `RingRouting.AddMovesOnlyToIt` | pkg/hashkit/ketama.go:118-145 | with equal weights adding a node moves keys only to it |
| `RingRouting.DelKeepsLookups` | pkg/hashkit/ketama.go:147-182 | the same for lookups: only a key found on the deleted node is found elsewhere |
| `RingRouting.AddKeepsLookups` | pkg/hashkit/ketama.go:118-182 | after adding a node every key is found on it or where it was |
| `RingRouting.PingLoop.Round` | proxy/forwarder.go:283-335 | a round of a pinger counts failures, takes the node out at the limit and puts it back on success |
| `RingRouting.PingersTrack` | proxy/forwarder.go:283-335 | after any interleaving each pinger knows its failures since the last success, and has taken its node out exactly when they reached the limit |
| `RingRouting.RunKeepsLists` | proxy/forwarder.go:283-335 | after any interleaving the ring lists exactly the nodes not taken out, with their configured weights |
| `RingRouting.HistoryIndependence` | proxy/forwarder.go:283-335 | after any interleaving a node is absent exactly when its pinger has ejected it, and every value has the owner it has on a ring freshly made of the nodes present |
| `RingRouting.SameRoute` | pkg/hashkit/ketama.go:170-182 | and every lookup gives what it gives on that fresh ring, if no two of its nodes have a tick in one place |
| `PipeTable.GetMasters` | proxy/proto/redis/cluster/slot.go:85-93 | each connected master without other flags once, in any order, and no one else |
| `PipeTable.Renew` | proxy/proto/redis/cluster/cluster.go:236-252 | listed addresses keep their pipes or get fresh ones; what is left of the copy are the pipes no longer listed |
| `PipeTable.InitPipes` | proxy/forwarder.go:222-238 | as before for the forwarder; a pipe is lost exactly when an address without one is listed twice |
| `PipeTable.CloseOthers` | proxy/forwarder.go:144-150 | every pipe but the kept ones is closed once more |
| `PipeTable.Table.InitSlotNode` | proxy/proto/redis/cluster/cluster.go:227-258 | the table has one open pipe per listed address, kept addresses keep theirs, new ones get new pipes, and every pipe ever made and not in the table has been closed exactly once |
| `PipeTable.Table.Update` | proxy/forwarder.go:127-153 | the same for a server list; a list that does not parse changes nothing; no pipe is lost if and only if no new address is listed twice |
| `PipeTable.TwiceListed` | proxy/forwarder.go:222-238 | a new address listed twice leaves an open pipe outside the table |
| `PipeTable.Refreshes` | proxy/proto/redis/cluster/cluster.go:227-258 | over any sequence of refreshes a pipe stays in the table, open, exactly as long as its address is on every list; one that went is closed once and does not come back |
| `PipeTable.Updates` | proxy/forwarder.go:127-153 | over any sequence of updates, lists that do not parse included, a pipe stays exactly as long as its address stays listed and is closed once when it goes; a pipe is lost exactly if some update lists a new address twice |
| `Topology.MastersListed` | proxy/proto/redis/cluster/slot.go:85-93 | the masters picked from a parsed plan are the masters of the plan |
| `Topology.DownIsNotNormal` | proxy/proto/redis/cluster/slot.go:149-213 | a node is usable if and only if it is connected and has no flags but its role and `myself`; one that failed is not |
| `Topology.Refresh` | proxy/proto/redis/cluster/cluster.go:227-258 | from text to pipes: on the printed lines of a plan one open pipe for each of its masters, kept ones kept; text that does not parse changes nothing |
| `Slots.Divide` | enri/util.go:14-25 | the level division: the parts sum up, differ by at most one and the larger come first |
| `Slots.LevelUnique` | enri/util.go:14-25 | there is only one such division |
| `Slots.DivideSlots` | platform/job/create/server_cluster.go:138-168 | the master of rank c gets the range from the c-th bound to just before the next; slaves get none; nothing else changes |
| `Slots.DivideChunk` | platform/job/create/server_cluster.go:146-167 | the inner loop deals to the nodes of one chunk where the chunks before it left off |
| `Slots.NextRange` | platform/job/create/server_cluster.go:153-163 | the range of the next master |
| `Slots.Consecutive` | platform/job/create/server_cluster.go:138-168 | the ranges of N masters follow each other from slot 0 to slot 16383 |
| `Slots.EverySlotOnce` | platform/job/create/server_cluster.go:138-168 | every slot is in the range of exactly one of the N masters |
| `Slots.NonEmptyExactly` | platform/job/create/server_cluster.go:138-168 | all ranges are non-empty if and only if N squared is at most 16384, that is N is at most 128; then the last master gets 16384/N - N + 1 slots and the others one more than their share |
| `Slots.NothingForThe129th` | platform/job/create/server_cluster.go:138-168 | of 129 masters the last gets no slot |
| `Reshard.Collect` | enri/cluster.go:252-258 | the migration list is the surplus of each master, from the front of its list |
| `Reshard.Assign` | enri/cluster.go:259-266 | the list is handed out in order to the masters below their share, as often as each needs; an overrun of the list is reported |
| `Reshard.Give` | enri/cluster.go:262-265 | the next spares go to one master, as many as it lacks, or the list runs out |
| `Reshard.Reshard` | enri/cluster.go:242-267 | the moves are the surpluses matched to the needs of the level division |
| `ReshardPlans.FinishesExactly` | enri/cluster.go:259-266 | the loop stays within its list if and only if the masters list at least 16384 slots |
| `ReshardPlans.ReshardLevels` | enri/cluster.go:242-267 | if the masters' lists divide the slots, every move takes a slot from its owner at that time to another master, no slot moves twice, every slot keeps one owner, and the counts end as the level division |
| `ReshardPlans.LevelMovesLeast` | enri/cluster.go:298-302 | giving the larger shares to the larger holders leaves the least surplus of all even divisions |
| `ReshardPlans.DiffsAtLeast` | enri/cluster.go:242-267 | two ownerships differ in at least as many slots as their counts say have left |
| `ReshardPlans.FewestMoves` | enri/cluster.go:242-302 | with masters sorted by descending count no sequence of moves to counts within one of each other is shorter |
| `FillSlot.Mark` | enri/cluster.go:270-277 | the table marks exactly the listed slots and the count is that of all listings; it panics exactly on a slot outside the table |
| `FillSlot.Take` | enri/cluster.go:281-293 | one master's turn collects the next missing slots, as many as its share |
| `FillSlot.Deal` | enri/cluster.go:280-294 | the loop over the masters gives each its share, in the order of the missing slots |
| `FillSlot.FillSlot` | enri/cluster.go:269-296 | the additions are the first missing slots, as many as the count leaves, in level portions; a panic exactly if a listed slot is outside the table |
| `FillSlot.FillAddsMissing` | enri/cluster.go:269-296 | no owned slot is added and none twice |
| `FillSlot.MissingRoom` | enri/cluster.go:278-279 | the slots missing are at least what the count leaves, and exactly that if and only if none is listed twice |
| `FillSlot.FillCoversExactly` | enri/cluster.go:269-296 | every slot ends up owned if and only if none was listed twice or none was missing |
| `FillSlot.TwiceListedLeavesAHole` | enri/cluster.go:269-296 | one master listing slot 0 twice: slot 16383 is left to nobody |
| `NodesConf.IntoConfLine` | platform/chunk/node.go:25-44 | the line of a node: padded id, address, flags, master, counters, slots |
| `NodesConf.LineFormat` | platform/chunk/node.go:22-45 | the line as one piece of text, its words and counters in the order nodes.conf has them |
| `NodesConf.PaddedWithZeros` | platform/chunk/node.go:22-37 | ids are filled up in front with zeros and nothing else |
| `NodesConf.GenNodesConfFile` | platform/chunk/node.go:58-68 | the lines of all nodes in order, then the epoch line |
| `ConfParser.Enumerate` | proxy/proto/redis/cluster/slot.go:251-254 | the slots of a range |
| `ConfParser.SetSlots` | proxy/proto/redis/cluster/slot.go:191-202 | the slots of all words that give any, in order |
| `ConfParser.KeepLines` | proxy/proto/redis/cluster/slot.go:33-39 | the lines that are not blank, in order |
| `ConfParser.ScanMasters` | proxy/proto/redis/cluster/slot.go:45-59 | nodes by address, masters by id and the master of each slot; the first line that does not parse, or the first slot outside the table, decides |
| `ConfParser.FillMaster` | proxy/proto/redis/cluster/slot.go:56-58 | the slots of a master get its address and no others; a slot outside the table panics |
| `ConfParser.FillSlaves` | proxy/proto/redis/cluster/slot.go:61-73 | each slave of a listed master is listed for a slot as often as that master has it |
| `ConfParser.AppendSlave` | proxy/proto/redis/cluster/slot.go:66-71 | the slave is added once for each time a slot is named, and other slots stay |
| `ConfParser.ParseSlots` | proxy/proto/redis/cluster/slot.go:32-75 | on the printed lines of any plan, the plan's table; on any text, lines scanned in order until one stops it, and each slave of a listed master listed for every slot of that master, in any order |
| `ConfRoundTrip.SlotRoundTrip` | platform/chunk/slot.go:11-16 | a printed range is read as its slots; an empty one is skipped |
| `ConfRoundTrip.MovingSlot` | proxy/proto/redis/cluster/slot.go:219-232 | a slot that is migrating away is still its master's, one that is being imported is not |
| `ConfRoundTrip.LineRoundTrip` | platform/chunk/node.go:25-44 | a printed line is read as its node |
| `ConfRoundTrip.PlanRecovered` | proxy/proto/redis/cluster/slot.go:32-75 | from the printed lines of any plan the parser recovers each slot's master, no master for slots nobody has, and for each slot exactly the slaves printed as following its master |
| `ConfRoundTrip.OneSlave` | platform/job/create/server_cluster.go:170-181 | a master with one slave has that slave, alone, listed for each of its slots |
| `ConfRoundTrip.DealtPlanRecovered` | platform/job/create/server_cluster.go:138-181 | from the division through the printed lines to the proxy's table: every slot is with exactly the master it was dealt to, and with that master's only slave |
| `ClusterPlan.Create` | platform/job/create/server_cluster.go:43-49 | the plan is dealt and wired, and otherwise as it was |
| `ClusterPlan.AddrInjective` | platform/chunk/node.go:51-53 | different hosts or ports print as different addresses |
| `ClusterPlan.OneFollower` | platform/job/create/server_cluster.go:170-181 | in a dealt and wired plan a master is followed by the slave across its chunk and by no other |
| `ClusterPlan.EverySlotServed` | proxy/proto/redis/cluster/slot.go:32-75 | for every slot the proxy's table has exactly the master it was dealt to and exactly that master's slave, on another host |
| `ClusterPlan.Deploy` | platform/job/create/server_cluster.go:43-54 | offers to table: if `Chunks` plans, and host names and run ids can stand in a line, every slot is served by a master and its slave on another host |
| `ConfRoundTrip.WholeFileRejected` | platform/chunk/node.go:55-68 | with the epoch line the text does not parse |
| `Lzf.CopyRepeats` | anzi/lzf.go:31-35 | a match repeats what lies its distance back, its own bytes included |
| `Lzf.DecompressEncoded` | anzi/lzf.go:4-40 | decompressing the bytes of any valid token list gives its expansion, filled up with zeros to the output's size |
| `Lzf.AcceptedIsEncoded` | anzi/lzf.go:4-40 | whatever decompresses without a panic is the bytes of a valid token list, and gives its expansion |
| `Lzf.PutMatch` | anzi/lzf.go:28-35 | the byte by byte copy, with 32-bit indices, is the match; it stays in bounds exactly if it reaches back no further than the output so far and fits |
| `Lzf.PutRun` | anzi/lzf.go:18-22 | a literal run is copied as far as there is room |
| `Lzf.ReadMatch` | anzi/lzf.go:22-30 | length and distance of a match, with its extra length byte if it has one |
| `Lzf.Step` | anzi/lzf.go:15-36 | the token at hand is carried out on the array, or panics exactly where it cannot be |
| `Lzf.Decompress` | anzi/lzf.go:4-40 | the loop over the array computes the decompression, and panics exactly where it has none |
| `RdbDump.LengthRoundTrip` | anzi/rdb.go:361-398 | a length in any of its four forms is read back |
| `RdbDump.TextIsDecimal` | anzi/rdb.go:315-336 | a number is reported as the characters of its decimal form |
| `RdbDump.IntReadExactly` | anzi/rdb.go:315-336 | a string stored as a number of 8, 16 or 32 bits is read back if and only if it is not a negative one of 8 bits; those arrive 256 too large |
| `RdbDump.MinusOneLost` | anzi/rdb.go:316-322 | a stored -1 arrives as 255 |
| `RdbDump.StringRoundTrip` | anzi/rdb.go:297-352 | a string, plain, stored as a number or compressed, is read back and nothing beyond it |
| `RdbDump.ItemsRoundTrip` | anzi/rdb.go:471-546 | the elements of a list or set and the fields of a hash become their callbacks in order |
| `RdbDump.ZipRoundTrip` | anzi/rdb.go:656-736 | the string entries of a ziplist become pushes in order |
| `RdbDump.NodesRoundTrip` | anzi/rdb.go:989-1045 | so do those of a quicklist, node after node |
| `RdbDump.ValueRoundTrip` | anzi/rdb.go:460-546 | every value gives the callbacks of its contents; plain, ziplist and quicklist forms of a list give the same pushes |
| `RdbDump.RecordRoundTrip` | anzi/rdb.go:107-217 | a record gives its callbacks with its own expiry and no other |
| `RdbDump.SecondsReportedExactly` | anzi/rdb.go:411-418 | an expiry in seconds is reported right if and only if it is at most 4294967 |
| `RdbDump.SecondsLost` | anzi/rdb.go:411-418 | a key to expire in November 2023 is reported to expire in February 1970 |
| `RdbDump.DumpRoundTrip` | anzi/rdb.go:95-217 | reading a printed dump followed by anything makes exactly the callbacks of its records in order, reports the end and consumes the dump through its checksum and nothing more |
| `RdbReader.Reader.ReadItems` | anzi/rdb.go:471-546 | the loops emit the callbacks of the elements read before the end or the failure |
| `RdbReader.Reader.ReadZipList` | anzi/rdb.go:656-681 | likewise for the entries of a ziplist, which must end with its mark |
| `RdbReader.Reader.ReadQuickList` | anzi/rdb.go:989-1042 | likewise for the nodes of a quicklist |
| `RdbReader.Reader.ReadCounted` | anzi/rdb.go:471-546 | a count, its elements, then the expiry |
| `RdbReader.Reader.ReadListFromZipList` | anzi/rdb.go:656-681 | a list in one ziplist, then the expiry |
| `RdbReader.Reader.ReadListFromQuickList` | anzi/rdb.go:989-1045 | a list in ziplists, then the expiry |
| `RdbReader.Reader.ReadRound` | anzi/rdb.go:126-216 | one round of the loop, the expiry of the last one forgotten |
| `RdbReader.Reader.BgSyncProc` | anzi/rdb.go:107-217 | on a printed dump followed by anything, whatever the reader held before, exactly the callbacks of the dump, no error, and the rest untouched; on any stream, the callbacks made before it stops and why |

## Left out

- `ChunksAppend`, apart from its pairing loop: whether its residuals allow pairing at entry is not established, because one host can dominate them.
- `ChunksRecover`, `DistIt` and `DistAppendIt`: recovery makes one link per related host, and the other two only count.
- `HostFill.DpFillHostRes`: no chunks from before and no disabled hosts, which only the appending and recovering calls pass.
- A negative number of masters, on which the original fill never ends, and several offers from one host.
- `ChunkAllocator.MapIntoHostRes`: a node's demand of memory and cpu is positive; the original divides by it and turns an infinite quotient into an integer.
- `ChunkPlan.SetupSlaveOf`: chunks have four nodes, as everywhere in the original.
- `Lzf.Decompress`: input and output up to 8 KB short of 4 GB, beyond which 32-bit indices wrap and a match that reaches back too far no longer panics; `Unpack` itself has no bound.
- `Lzf.Step`: the same bound on the output.
- `Lzf.PutMatch`: the same bound on the output.
- RESP objects are values here: `RespReader` does not capture aliasing between a reused object and the buffer it was decoded from.
- White space outside ASCII in inline commands and in nodes.conf.
- Keys that are null bulk strings, on which `Key` panics; commands with one are outside `LegalCommand`.
- Commands outside `SingleKey` and the four that are split: those that touch several keys, depend on the clock or on chance, or are not supported, and errors from nodes inside a split command.
- The writer side: `Writer`, flushing to sockets, write timeouts.
- Closing a pipe while messages are in flight; `NodePipe` is about open pipes with one connection each.
- `DoAuth`, which a goroutine of its own runs on a new backend connection (proxy/proto/redis/node_conn.go:58-112): it writes to and reads from the same connection as the pipe, and the replies of `NodePipe` and `NodeConn` leave it out.
- The parser's gossip address and its ping, pong and epoch counters, which nothing reads.
- In dumps: entries of ziplists that hold integers, sorted sets, integer sets, zip maps, hashes in ziplists, modules and streams; the model stops at them.
- `migrateSlot` and the other commands to live nodes, `spread` and `distributeSlave`.
- Alias names of servers and hash tags: routing is by the ring's node names.
- memcache, authentication and the proxy's special commands, slow logs, metrics.
- Mesos, etcd, the API server, configuration and the web interface.
