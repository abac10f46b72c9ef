# Verification of the NoGIL data plane

This project models the two connected halves of the data plane and proves
properties of them.

**The packet codec and its frame.** `DomainPacketCodec.encode` walks an object
graph and builds a tagged JSON tree, a table of raw buffers and the buffers
themselves; `decode` reads the same from bytes nobody vouches for;
`DomainRpcSerializer` puts both behind a 13-byte header. `Packets` holds the two
directions as functions with their counters threaded through, and
`DomainPacketCodecs` the codec in its own imperative form, each method proved
equal to its function.

**The checkout protocol.** `BatchedDomainListActor` and `InputDomainListActor`
own a domain storage and hand out batches under checkout tokens; a worker's
facade keeps its own view of its checkout across a transport that may lose or
delay requests and replies. `BatchedActor`, `InputActor`, `BatchedFacade` and
`InputFacade` hold each operation as a function on the state and as the method
of a class that updates its fields; `Protocol` puts many facades, one actor and
a lossy wire into one transition system; `EndToEnd` joins both halves.

How to read it:

| files | content |
|---|---|
| `Results`, `Floats`, `Tensors`, `Values` | outcomes; doubles; strided and dense tensors; Python values, object heaps, JSON |
| `Packets`, `DomainPacketCodec`, `RpcSerializer` | encode, decode and frame, as functions and as classes |
| `Printing`, `RoundTrip`, `Linearity`, `EncodeExactly`, `DecodeExactly`, `EncodeLimits`, `DecodeLimits`, `DecodeWork` | what the codec guarantees |
| `Adapters`, `FieldOrder`, `DefaultLimits`, `FieldExamples` | dataclass adapters with defaults, and what decoding their packets adds and reorders |
| `MapTensors`, `MapExactly`, `MappedTensors` | `map_tensors` |
| `SharedStates`, `Stores`, `ActorStates` | state records; the storage contract; actor state and its books |
| `BatchedActor`, `BatchedOutcomes`, `BatchedRuns`, `InputActor`, `InputOutcomes`, `InputRuns` | the two actors, what each call does, and all their runs |
| `BatchedFacade`, `Protocol`, `InputFacade` | the two facades and all runs of whole systems |
| `StateTravel`, `EndToEnd`, `InputEndToEnd` | a program run remotely against the same program run on the storage, for either list |

Three conventions. An object graph is a `Heap` from identities to objects, so
sharing and cycles are included; `Unfold` reads it as a tree. A storage is a
`Store`, a record of functions that return or raise and may leave any new state
when they raise; `Accounting.Balances` says a storage that does not raise loses
and invents no domain. Next to the actor state the proofs keep a `Ledger`:
everything that entered, and every batch issued with its token, its worker and
whether its checkout was ended.

What the proofs assume, always as an explicit `requires`:

- parsing undoes printing for the trees the JSON grammar can express (RFC 8259,
  which has no infinities and no NaN); what the encoder writes is proved to be
  such a tree;
- the codec's two adapter tables agree, which `RegisterAdapter` keeps;
- an adapter's constructor undoes `encode_fields`: for the values at hand
  (`Faithful`), for whatever a packet may contain (`AdaptersRebuild`), or under
  mapping (`AdaptersUniform`). Dataclass adapters are proved to meet all three.
  That constructors add no objects or no leaves of their own
  (`AdaptersKeepSize`, `AdaptersKeepLeaves`) is a condition of the size and leaf
  bounds only; what dataclasses with defaults add is stated exactly instead;
- checkout tokens are fresh, and each worker id is used by one facade.

## Where the code and its promises differ

- `README.md:24` promises that stale tokens fail before mutation. In
  `InputDomainListActor`, publishing with no token while no checkout is active
  passes the comparison, adds the domains and only then raises `KeyError`
  (`input_domain_list.py:39-41, 66-68`). `InputRuns.StalePublish` states the
  exact condition. In `BatchedDomainListActor` the strict completions record a
  sticky failure when the worker has no active checkout at all
  (`batched_domain_list_actor.py:194-198`); nothing else changes
  (`BatchedRuns.StaleTokenRefused`).
- The limits on elements, depth and leaves do not limit what `decode` returns:
  fields a packet leaves to a dataclass's defaults are neither counted nor
  checked. `FieldExamples.DefaultsExceedLimit`, `DefaultsExceedDepth` and
  `DefaultsExceedLeaves` give the packets. The tree has the nodes of the packet
  and the defaults filled in (`FieldOrder.AcceptedSize`); it is within the depth
  limit exactly when those defaults fit below the nodes that leave them out
  (`DefaultLimits.AcceptedDepth`), and its leaves are within the limits exactly
  when those of the defaults are (`DefaultLimits.AcceptedLeaves`).
- An accepted packet that lists a dataclass's fields out of declaration order
  is encoded again with its buffers in another order
  (`FieldExamples.SwappedReencodes`); the exact order is `FieldOrder.ReencodedRaw`.
- The version of `BatchedDomainListActor` pins the state of running actors only:
  `BatchedRuns.VersionMisses` says exactly which calls fail it without moving the
  version. The version of `InputDomainListActor` misses exactly a sort that raises
  after changing the storage (`InputRuns.VersionMisses`, with an example in
  `InputRuns.VersionMissesExample`).
- `RpcInputDomainList` has no broken flag: one lost reply can separate it from
  the actor for good (`InputFacade.AgreementAfterLoss`,
  `InputFacade.LostPickForever`).

## Model

The results come first. The rows from `DomainPacketCodecs.EncodeRun.Append` on are
the class halves: methods that update fields in place, each proved to compute the
function on states that the results above are about.

| member | source | states |
|---|---|---|
| `Tensors.DtypeTablesInverse` | nogil_data_plane/domain_packet_codec.py:12-18 | the two dtype tables are inverse in both directions |
| `Tensors.WidthNamed` | nogil_data_plane/domain_packet_codec.py:12-18 | the element size of every dtype is the number of bits in its name; a bool takes one byte |
| `Tensors.RavelBijection` | nogil_data_plane/domain_packet_codec.py:104-109 | row-major position of every multi-index lies in `[0, numel)` and leads back to it, 0-D and empty shapes included |
| `Tensors.UnravelBijection` | nogil_data_plane/domain_packet_codec.py:195-199 | every position below `numel` is the position of exactly the multi-index computed for it |
| `Tensors.DensifyAgrees` | nogil_data_plane/domain_packet_codec.py:104-109 | for every shape and stride vector, transposed, expanded or with stride zero, the dense copy shows the same element bytes as the source at every multi-index |
| `Tensors.DensifyContiguous` | nogil_data_plane/domain_packet_codec.py:195-199 | a rebuilt dense tensor, cloned again, is the same dense tensor |
| `Printing.WalkPrintable` | nogil_data_plane/domain_packet_codec.py:59-142 | no accepted walk writes an infinity or a NaN |
| `Printing.EnvelopePrintable` | nogil_data_plane/domain_packet_codec.py:144-146 | the envelope of every accepted object graph is JSON, so printing it with `allow_nan=False` never raises |
| `RoundTrip.WalkSound` | nogil_data_plane/domain_packet_codec.py:59-142 | every accepted walk keeps offsets equal to running chunk lengths and all table limits, only appends, and has read a finite tree within the depth limit |
| `RoundTrip.DescriptorReadBack` | nogil_data_plane/domain_packet_codec.py:165-200 | a descriptor the encoder could write is accepted at its offset, gives back its buffer and moves the end by its size |
| `RoundTrip.TableReadBack` | nogil_data_plane/domain_packet_codec.py:163-202 | decoding the encoder's table over the joined chunks succeeds from every position, gives back every buffer and ends at the last byte |
| `RoundTrip.LeafReadBack` | nogil_data_plane/domain_packet_codec.py:211-225 | the node of an accepted leaf is read back as that leaf: kind, number range, string limit and buffer |
| `RoundTrip.ReadBackInstance` | nogil_data_plane/domain_packet_codec.py:135-141 | the tag written for an accepted instance leads back to its own constructor, which rebuilds it |
| `RoundTrip.ReadBack` | nogil_data_plane/domain_packet_codec.py:203-249 | from any partial tables, the decoder's walk over an encoded node returns the tree and the encoder's element count, at the same depth |
| `RoundTrip.EncodedTotal` | nogil_data_plane/domain_packet_codec.py:89-149 | whatever `encode` accepts is a finite tree within the depth limit, and the chunk lengths add up to the reported total |
| `RoundTrip.EncodeDecode` | nogil_data_plane/domain_packet_codec.py:52-250 | whatever `encode` accepts from any object graph, `decode` under the same limits and adapters returns as an equal tree |
| `RoundTrip.EncodeDecodeTree` | nogil_data_plane/domain_packet_codec.py:52-250 | for a tree of values, what comes back is that tree |
| `RpcSerializer.BigEndianInverse` | nogil_data_plane/rpc_serializer.py:15-16 | a length below 256 to the width survives packing and unpacking |
| `RpcSerializer.FromBigEndianInverse` | nogil_data_plane/rpc_serializer.py:15-16 | every byte string survives unpacking and packing |
| `RpcSerializer.MostSignificantFirst` | nogil_data_plane/rpc_serializer.py:15-16 | a packed number has its most significant byte first |
| `RpcSerializer.FrameParts` | nogil_data_plane/rpc_serializer.py:31-51 | magic, version, length, metadata and raw region are found where `loads` slices |
| `RpcSerializer.HeaderBytes` | nogil_data_plane/rpc_serializer.py:13-16 | every frame starts with the letters `NDRP`, version one and eight bytes for the metadata length, thirteen bytes in all |
| `RpcSerializer.LoadsExactly` | nogil_data_plane/rpc_serializer.py:37-55 | a payload loads as a value exactly when it is the frame of a packet that decodes to it |
| `RpcSerializer.DumpsFailsOnlyWithEncode` | nogil_data_plane/rpc_serializer.py:25-35 | after a successful `encode`, `dumps` fails only if the metadata length does not fit the header; the raw-length error is unreachable |
| `RpcSerializer.LoadsDumps` | nogil_data_plane/rpc_serializer.py:25-55 | `loads(dumps(x))` is the tree `x` stands for |
| `RpcSerializer.DumpsInjective` | nogil_data_plane/rpc_serializer.py:25-35 | two graphs with the same bytes stand for the same tree |
| `RpcSerializer.CarryIdentity` | nogil_data_plane/rpc_serializer.py:19-55 | a value that can be sent arrives unchanged; arrival fails only if sending does |
| `EncodeLimits.WalkBounded` | nogil_data_plane/domain_packet_codec.py:59-65 | an accepted walk counts one element per call, a refused one stops within one call of the limit, none goes deeper than one past the depth limit |
| `EncodeLimits.EncodeBounded` | nogil_data_plane/domain_packet_codec.py:59-65 | on every graph, cyclic or shared, accepted or refused, at most `max_container_elements + 1` calls and depth at most `max_tree_depth + 1`; the calls are those the class method makes (`EncodeRun.Visit`) |
| `EncodeLimits.PathsBounded` | nogil_data_plane/domain_packet_codec.py:61-62 | every reference path from an accepted object ends within the depth limit |
| `EncodeLimits.CyclesRefused` | nogil_data_plane/domain_packet_codec.py:59-142 | a graph in which a cycle can be reached is always refused |
| `DecodeWork.ReadBounded` | nogil_data_plane/domain_packet_codec.py:204-249 | a walk over an untrusted node counts one element per call when accepted and stops within one call of the limit when refused |
| `DecodeWork.DecodeBounded` | nogil_data_plane/domain_packet_codec.py:204-210 | whatever the packet says, rebuilding its tree takes at most `max_container_elements + 1` calls and goes at most one past the depth limit; the calls are those the class method makes (`DecodeRun.Visit`) |
| `EncodeExactly.LeafExactly` | nogil_data_plane/domain_packet_codec.py:66-127 | a leaf is accepted exactly when it is within its own limit and the remaining buffers and bytes suffice; the tables grow by exactly its need |
| `EncodeExactly.WalkExactly` | nogil_data_plane/domain_packet_codec.py:59-142 | the walk accepts exactly the readable, registered trees whose own counts fit in what is left of the limits, and consumes exactly those counts |
| `EncodeExactly.AcceptsExactly` | nogil_data_plane/domain_packet_codec.py:52-149 | which graphs `encode` accepts, if and only if, in terms of the tree alone; after the walk only the metadata length can refuse |
| `DecodeLimits.BufferExactly` | nogil_data_plane/domain_packet_codec.py:165-200 | a descriptor is accepted exactly when it is well formed, starts at the previous end and fits; its buffer is the slice it names |
| `DecodeLimits.TableExactly` | nogil_data_plane/domain_packet_codec.py:163-202 | a table is accepted to the end of the raw region exactly when its descriptors tile the rest of it |
| `DecodeLimits.AcceptedTiles` | nogil_data_plane/domain_packet_codec.py:151-202 | for arbitrary bytes, acceptance implies schema 1, all packet limits, and descriptors that tile the raw region with consistent shapes and sizes |
| `DecodeLimits.TilesPartition` | nogil_data_plane/domain_packet_codec.py:188-202 | tiling ranges are disjoint and cover every raw byte |
| `DecodeLimits.TableWithin` | nogil_data_plane/domain_packet_codec.py:183-193 | every accepted tensor is within the rank and element limits |
| `DecodeExactly.LeafExactly` | nogil_data_plane/domain_packet_codec.py:211-225 | a node without children is read as a value exactly when it is a node of that value's kind with a payload of exactly its type, in range and within its limit, or names the buffer of that kind with those bytes |
| `DecodeExactly.ReadSound` | nogil_data_plane/domain_packet_codec.py:203-249 | whatever the walk reads from a node is what the node stands for, within the limits on nodes and levels; one element is counted per node |
| `DecodeExactly.ReadComplete` | nogil_data_plane/domain_packet_codec.py:203-249 | every node that stands for a value and whose nodes and levels fit is read as that value |
| `DecodeExactly.DecodesExactly` | nogil_data_plane/domain_packet_codec.py:151-250 | for arbitrary bytes: `decode` returns `v` if and only if packet limits, schema and tiling hold, the nodes fit in number and depth, and the root stands for `v`, told of the JSON tree and the raw bytes alone |
| `DecodeLimits.ReadFits` | nogil_data_plane/domain_packet_codec.py:203-249 | every tree built from an untrusted node has proper dictionaries and instances its adapters would rebuild; as far as constructors add no leaves and no objects, every leaf is within its limit, the depth is within the limit and the elements counted are its objects |
| `DecodeLimits.AcceptedTreeFits` | nogil_data_plane/domain_packet_codec.py:203-250 | the same for arbitrary packets: proper dictionaries and instances always; at most `max_container_elements` objects, depth at most `max_tree_depth` and every leaf within its limit as far as constructors add nothing (what dataclasses with defaults add is exact in `AcceptedSize`, `AcceptedDepth` and `AcceptedLeaves`) |
| `DecodeLimits.ReencodeStable` | nogil_data_plane/domain_packet_codec.py:52-250 | if what any accepted packet decodes to can be encoded again, decoding that gives the same tree; defaults included |
| `Adapters.FieldDictCount` | nogil_data_plane/domain_packet_codec.py:270-276 | the fields of an instance have exactly the objects of the fields given, in whatever order, and of the defaults filled in |
| `Adapters.DataclassRebuilds` | nogil_data_plane/domain_packet_codec.py:270-276 | what `dataclass_adapter` builds from any fields, defaults filled in, it would build again from the instance's own fields |
| `Adapters.DataclassCodecRebuilds` | nogil_data_plane/domain_packet_codec.py:270-276 | a codec with dataclass adapters only meets the law asked of adapters on untrusted input |
| `Adapters.DataclassCodecKeepsLeaves` | nogil_data_plane/domain_packet_codec.py:270-276 | it adds no leaf outside the limits when its defaults have none |
| `Adapters.DataclassCodecKeepsSize` | nogil_data_plane/domain_packet_codec.py:270-276 | it adds no object and no level when it has no defaults |
| `Adapters.DataclassCodecUniform` | nogil_data_plane/domain_packet_codec.py:270-276 | the same for the law asked when mapping tensors |
| `Linearity.WalkTrace` | nogil_data_plane/domain_packet_codec.py:82-142 | an encoded node refers to the buffers its walk added once each, in table order, with matching kinds |
| `Linearity.EncoderLinear` | nogil_data_plane/domain_packet_codec.py:144-149 | the indices in an encoded tree, read in pre-order, are `0..n-1`; offsets are prefix sums ending at the reported total |
| `Linearity.WalkRaw` | nogil_data_plane/domain_packet_codec.py:82-142 | the raw region is the leaves' bytes in reading order, whatever the sharing in the graph |
| `Linearity.ReadRaw` | nogil_data_plane/domain_packet_codec.py:217-249 | the raw bytes of a decoded tree are those of the buffers its node names, in order, when the node lists the fields of its instances in their classes' order |
| `Linearity.ReencodeSameRaw` | nogil_data_plane/domain_packet_codec.py:163-249 | if an accepted packet names its buffers once each and in order, and lists fields in their classes' order, re-encoding reproduces its raw region byte for byte |
| `FieldOrder.ReadHolds` | nogil_data_plane/domain_packet_codec.py:203-276 | for dataclass codecs: the elements counted are the nodes of the packet; the tree has these and the defaults filled in; its raw bytes are those of the buffers met in declaration order and of the defaults |
| `FieldOrder.AcceptedSize` | nogil_data_plane/domain_packet_codec.py:203-250 | for dataclass codecs, every accepted packet: objects of the tree = nodes of the packet, at most `max_container_elements`, + defaults filled in |
| `DefaultLimits.ReadExactly` | nogil_data_plane/domain_packet_codec.py:203-276 | for every node the walk accepts: the value is within the levels left, and its leaves within the limits, exactly as far as the defaults the node leaves out are |
| `DefaultLimits.AcceptedDepth` | nogil_data_plane/domain_packet_codec.py:203-250 | for dataclass codecs, every accepted packet: the tree is within `max_tree_depth`, or any larger number of levels, if and only if the defaults left out fit below the nodes that leave them out |
| `DefaultLimits.AcceptedLeaves` | nogil_data_plane/domain_packet_codec.py:203-250 | for dataclass codecs, every accepted packet: all leaves of the tree are within the limits if and only if those of the defaults left out, names included, are |
| `FieldOrder.ReencodedRaw` | nogil_data_plane/domain_packet_codec.py:163-276 | for dataclass codecs, every accepted packet: re-encoding writes exactly the buffers in declaration order, with the bytes of the defaults filled in |
| `FieldOrder.DeclaredKeepsOrder` | nogil_data_plane/domain_packet_codec.py:270-276 | packets that list all fields in declaration order meet the order condition of `ReencodeSameRaw` |
| `FieldExamples.DefaultsExceedLimit` | nogil_data_plane/domain_packet_codec.py:240-248 | a packet of two nodes that decodes to a tree of any size its class's default has |
| `FieldExamples.DefaultsExceedDepth` | nogil_data_plane/domain_packet_codec.py:240-248 | the same packet under a depth limit of one decodes to a tree above it |
| `FieldExamples.DefaultsExceedLeaves` | nogil_data_plane/domain_packet_codec.py:240-248 | the same packet with a NaN default decodes to a tree with a leaf the protocol refuses |
| `FieldExamples.SwappedReencodes` | nogil_data_plane/domain_packet_codec.py:240-276 | a packet that lists two fields out of order decodes, its value encodes, and the two buffers come out exchanged |
| `MapTensors.MapEntriesEach` | nogil_data_plane/domain_packet_codec.py:258 | on a proper dictionary, tensors among the keys or not, the comprehension merges no keys and gives a proper dictionary of the same length |
| `MapTensors.MapIdentity` | nogil_data_plane/domain_packet_codec.py:252-268 | mapping a transform that keeps contents, as `snapshot` does, gives an equal tree |
| `MapTensors.MapComposition` | nogil_data_plane/domain_packet_codec.py:252-263 | mapping one transform and then another is mapping their composition |
| `MapTensors.MapFaithful` | nogil_data_plane/domain_packet_codec.py:252-263 | a mapped value survives the round trip if its source does |
| `MapTensors.MapCommutesWithWire` | nogil_data_plane/domain_packet_codec.py:52-263 | mapping before sending and mapping after receiving give the same value whenever both sides encode |
| `MapExactly.MapsExactly` | nogil_data_plane/domain_packet_codec.py:252-263 | `map_tensors` returns `x` if and only if `x` is the value with every tensor transformed in place and every instance built by its own class's constructor from its own field names; an instance of no registered class, or one the constructor refuses, anywhere inside makes it raise |
| `MappedTensors.MapReachesEach` | nogil_data_plane/domain_packet_codec.py:252-268 | the tensors of the result are the transforms of the source's tensors, one each, in reading order: none escapes untransformed |
| `SharedStates.StateWireCheck` | nogil_data_plane/types.py:37-63 | `from_dict(to_dict(s))` is `s` exactly when counts are not negative and `shared_idle` matches counts and failure, and an error otherwise |
| `SharedStates.SnapshotWireCheck` | nogil_data_plane/types.py:76-87 | the same for snapshots, with a job id and a version that is not negative |
| `SharedStates.FromDictExactly` | nogil_data_plane/types.py:40-63 | whatever arrives, extra keys allowed, is accepted as a state if and only if it says that state in the right types, the reason being optional, and the state is consistent |
| `SharedStates.SnapshotFromDictExactly` | nogil_data_plane/types.py:76-87 | the same for snapshots, with a job id and a version that is not negative |
| `SharedStates.AcceptedConsistent` | nogil_data_plane/types.py:54-63 | whatever arrives, what is accepted is consistent |
| `SharedStates.RecordWireCheck` | nogil_data_plane/types.py:98-113 | a domain record sent as a dictionary is read back as the same record |
| `ActorStates.ReportedStateAccepted` | nogil_data_plane/batched_domain_list_actor.py:47-60 | every state an actor can be in is reported so that the receiver accepts it unchanged |
| `ActorStates.EffectTracks` | nogil_data_plane/batched_domain_list_actor.py:118-203 | every kind of step keeps the open issues exactly the actor's checkouts |
| `ActorStates.EffectBalances` | nogil_data_plane/batched_domain_list_actor.py:118-203 | every kind of step keeps the books balanced: unique tokens, open issues exactly the actor's checkouts, nothing lost |
| `ActorStates.OpenIsHeld` | nogil_data_plane/batched_domain_list_actor.py:158-203 | an issue is open exactly while its worker holds its token, and an ended issue's token is nobody's |
| `ActorStates.IdleIsSound` | nogil_data_plane/batched_domain_list_actor.py:47-57 | `shared_idle` implies every checkout was ended and everything that entered was in ended batches |
| `ActorStates.ReportsOpen` | nogil_data_plane/batched_domain_list_actor.py:47-57 | `checked_out_shared_batches` is the number of batches issued whose checkout has not been ended |
| `ActorStates.NothingHandedTwice` | nogil_data_plane/batched_domain_list_actor.py:105-126 | if no domain entered twice, no domain is in two batches, failed actor or not |
| `ActorStates.EndsItsOwn` | nogil_data_plane/batched_domain_list_actor.py:158-203 | a step that ends a token's checkout removes exactly its worker's entry and touches no other issue |
| `BatchedOutcomes.AcceptsExactly` | nogil_data_plane/batched_domain_list_actor.py:81-277 | exactly which calls return, in terms of registration, job, checkout, token, size, validation and what the storage does, and with what error the others raise |
| `BatchedOutcomes.FailsExactly` | nogil_data_plane/batched_domain_list_actor.py:73-79 | exactly which calls fail the actor, and with what reason; a recorded reason is never replaced |
| `BatchedOutcomes.StorageExactly` | nogil_data_plane/batched_domain_list_actor.py:92-251 | after any call the storage is what its own `pick_out`, `add` or `sort` left, with the clipped size and the validated payload, and otherwise untouched; a sort sorts |
| `BatchedOutcomes.WorkersExactly` | nogil_data_plane/batched_domain_list_actor.py:81-228 | exactly who is registered after any call |
| `BatchedOutcomes.CheckoutsExactly` | nogil_data_plane/batched_domain_list_actor.py:118-203 | checkouts open exactly by an accepted pick that found something, under its token, and end exactly by an accepted add, publish or completion of their own worker |
| `BatchedOutcomes.VersionExactly` | nogil_data_plane/batched_domain_list_actor.py:66-251 | the version counts the changes: exactly which calls move it, by one |
| `BatchedOutcomes.ClosingExactly` | nogil_data_plane/batched_domain_list_actor.py:208-216 | a registered worker that closes leaves alone, with a checkout as a sticky failure; storage, checkouts and other workers stay; anybody else is refused |
| `BatchedOutcomes.ReportingExactly` | nogil_data_plane/batched_domain_list_actor.py:218-228 | the same for a worker reported as failed, registered or not |
| `BatchedOutcomes.ClosingReported` | nogil_data_plane/batched_domain_list_actor.py:208-216 | the reply to a close with a checkout says failed, not idle, and why |
| `BatchedOutcomes.RecordExactly` | nogil_data_plane/types.py:98-113 | a domain is a record exactly when it shows all six names; the record then has these names only, and under each what the domain shows |
| `BatchedOutcomes.ReadsExactly` | nogil_data_plane/batched_domain_list_actor.py:266-277 | a read returns exactly when the actor runs, the index exists from either end, the version is absent or current and the domain there shows all six names; it then shows that domain, and it changes nothing |
| `BatchedRuns.FailureSticksForever` | nogil_data_plane/batched_domain_list_actor.py:73-79 | over every run from a failed state the reason, storage and checkouts never change, workers only leave, `shared_idle` stays false |
| `BatchedRuns.VersionMoves` | nogil_data_plane/batched_domain_list_actor.py:66-67 | a step that leaves the actor running changes nothing or moves the version on; the version never decreases |
| `BatchedRuns.VersionMisses` | nogil_data_plane/batched_domain_list_actor.py:92-206 | a changed state keeps its version exactly for the listed misuses and storage failures in `pick_out`, `add`, `donate` and the completions |
| `BatchedRuns.FailureMayKeepVersion` | nogil_data_plane/batched_domain_list_actor.py:137-140 | one such call: `add` with a flag that is no boolean |
| `BatchedRuns.OthersUntouched` | nogil_data_plane/batched_domain_list_actor.py:81-251 | no call touches the checkout of a worker it does not name |
| `BatchedRuns.StaleTokenRefused` | nogil_data_plane/batched_domain_list_actor.py:158-206 | a stale or foreign token changes nothing, except that completing with no active checkout records a failure, exactly then |
| `BatchedRuns.DonateKeepsCheckouts` | nogil_data_plane/batched_domain_list_actor.py:182-188 | `donate` never changes the checkouts although `add` pops one |
| `BatchedRuns.ExecuteHasEffect` | nogil_data_plane/batched_domain_list_actor.py:81-277 | what every call did to storage and checkouts is what its reply tells, and non-failed states keep every checkout with a registered worker |
| `BatchedRuns.Conservation` | nogil_data_plane/batched_domain_list_actor.py:92-228 | in every run from the start, a running actor's pending domains, live batches and ended batches are exactly the initial and accepted domains; idleness is reported only when no batch is owed |
| `BatchedRuns.DisjointBatches` | nogil_data_plane/batched_domain_list_actor.py:105-126 | in every run, failed or not, no domain is in two batches |
| `BatchedRuns.TokenLife` | nogil_data_plane/batched_domain_list_actor.py:118-203 | over every run from the start, split anywhere: an issued token is its worker's entry until its checkout is ended, and from then on in no later state anybody's entry |
| `BatchedRuns.OnlyOwnerEnds` | nogil_data_plane/batched_domain_list_actor.py:150-203 | the call that ends a checkout names the worker the token was issued to, with that token if it carries one |
| `BatchedRuns.VersionPinsState` | nogil_data_plane/batched_domain_list_actor.py:66-251 | over every run, two running states of equal version are the same state |
| `BatchedRuns.PinnedRead` | nogil_data_plane/batched_domain_list_actor.py:266-277 | a read pinned to the version at which a state was seen, accepted any number of calls later, finds that very state and shows the domain at that index in it |
| `BatchedRuns.RepliesAccepted` | nogil_data_plane/batched_domain_list_actor.py:59-64 | every state, snapshot and record in every reply, on failed actors too, passes the receiver's check and is the actor's own |
| `BatchedFacade.AnyPickReply` | nogil_data_plane/rpc_batched_domain_list.py:107-133 | whatever comes back for a pick, the facade holds a checkout exactly if the reply hands a batch over, and breaks exactly on an error, on no dictionary and on a batch claimed but not handed over |
| `BatchedFacade.AnyReply` | nogil_data_plane/rpc_batched_domain_list.py:135-270 | whatever comes back for another call, an error alone breaks the facade, and exactly an add, publish or completion answered ok gives the checkout up |
| `Protocol.StepAgrees` | nogil_data_plane/rpc_batched_domain_list.py:78-270 | one call of any kind, answered or not, keeps an unbroken facade's checkout equal to the actor's entry and its batch flag true exactly when a checkout is set |
| `Protocol.NextKeepsInv` | nogil_data_plane/rpc_batched_domain_list.py:27-270 | every event of the system (connect, call, late delivery, control) keeps books, wire and agreement |
| `Protocol.EveryRun` | nogil_data_plane/rpc_batched_domain_list.py:27-270 | in every reachable state over a lossy, delaying transport: unbroken open facades agree with the actor, the batches reported as out are those issued and not ended, idleness is sound, no domain is lost, none is in two batches |
| `Protocol.LostPickOrphans` | nogil_data_plane/rpc_batched_domain_list.py:84-118 | a pick executed after its caller gave up leaves a checkout whose facade is broken with nothing under way |
| `Protocol.LostReplyOrphans` | nogil_data_plane/rpc_batched_domain_list.py:84-118 | the same for a pick executed at once whose reply is lost |
| `Protocol.BrokenSendsNothing` | nogil_data_plane/rpc_batched_domain_list.py:78-82 | a facade that is broken, closed or told to stop never calls the actor; its calls fail and change nothing, and closing only closes it |
| `Protocol.OrphanStays` | nogil_data_plane/batched_domain_list_actor.py:190-228 | no event of any facade or of the owner removes an orphaned checkout |
| `Protocol.LostPickNeverIdle` | nogil_data_plane/batched_domain_list_actor.py:47-57 | from a lost pick on, in every later state of every run, the facade is broken, the checkout stays and `shared_idle` is false |
| `Protocol.ClosingFacade` | nogil_data_plane/rpc_batched_domain_list.py:259-270 | in every reachable state, an open unbroken facade that closes and is answered takes its worker out, and the actor has then failed exactly if it had before or the facade still had a checkout |
| `Protocol.FailedForever` | nogil_data_plane/batched_domain_list_actor.py:73-79 | from a failed state on, in every later state of every run of the system: reason, storage and checkouts stay and `shared_idle` is false |
| `InputOutcomes.AcceptsExactly` | nogil_data_plane/input_domain_list.py:43-98 | exactly which calls return, and with what error the others raise |
| `InputOutcomes.FailsExactly` | nogil_data_plane/input_domain_list.py:49-98 | exactly which calls fail the actor, and with what reason: a storage that raises in pick or add, leaving with a checkout, and `fail`; misuse and a raising sort never do |
| `InputOutcomes.StorageExactly` | nogil_data_plane/input_domain_list.py:49-82 | after any call the storage is what its own operation left, the publish that then raises `KeyError` included, and otherwise untouched |
| `InputOutcomes.WorkersExactly` | nogil_data_plane/input_domain_list.py:43-94 | exactly who is registered after any call |
| `InputOutcomes.CheckoutsExactly` | nogil_data_plane/input_domain_list.py:49-76 | checkouts open and end exactly by accepted picks, publishes and completions of their own worker |
| `InputOutcomes.VersionExactly` | nogil_data_plane/input_domain_list.py:43-98 | exactly how far each call moves the version: two for a publish, none for a sort that raises |
| `InputRuns.FailureSticksForever` | nogil_data_plane/input_domain_list.py:35-98 | over every run from a failed state nothing but the worker set and the version changes, despite the unconditional writes at lines 56 and 63 |
| `InputRuns.VersionMisses` | nogil_data_plane/input_domain_list.py:43-98 | a changed state keeps its version exactly when a sort raised after changing the storage |
| `InputRuns.VersionPinsState` | nogil_data_plane/input_domain_list.py:43-98 | over every run without such a sort, equal versions mean equal states, failed ones included |
| `InputRuns.VersionMissesExample` | nogil_data_plane/input_domain_list.py:82 | a concrete storage and call that change the state and keep the version |
| `InputRuns.StalePublish` | nogil_data_plane/input_domain_list.py:39-41 | a publish without the worker's active token changes the state exactly when no token is given and none is active; then the domains are added |
| `InputRuns.StaleComplete` | nogil_data_plane/input_domain_list.py:74-76 | a completion without the worker's active token changes nothing |
| `InputRuns.RaisedChangesNothing` | nogil_data_plane/input_domain_list.py:43-98 | a raising call changes a running actor exactly in the two cases above |
| `InputRuns.ExecuteMoves` | nogil_data_plane/input_domain_list.py:43-98 | what every call did to the checkouts is what its reply tells, without exception |
| `InputRuns.ExecuteHasEffect` | nogil_data_plane/input_domain_list.py:43-98 | what every call did is what its reply tells, a publish that raises `KeyError` counting as a donation; only a raising sort that changed which domains there are is left out |
| `InputRuns.OnlyOwnerEnds` | nogil_data_plane/input_domain_list.py:39-76 | a checkout is ended only by its own worker with its own token |
| `InputRuns.IdleInEveryRun` | nogil_data_plane/input_domain_list.py:23-98 | over every run, whatever the storage does: the batches reported as out are those issued and not ended, `shared_idle` implies every checkout was ended, and a token is in an entry exactly while its issue is open |
| `InputRuns.TokenLife` | nogil_data_plane/input_domain_list.py:39-76 | over every run from the start, split anywhere, whatever the storage does: an issued token is its worker's entry until its checkout is ended, and from then on in no later state anybody's entry |
| `InputRuns.Conservation` | nogil_data_plane/input_domain_list.py:23-98 | conservation over every run in which no raising sort changed which domains there are; idleness then accounts for all of them |
| `InputRuns.DisjointBatches` | nogil_data_plane/input_domain_list.py:49-58 | in every run in which no raising sort changed which domains there are, failed or not, no domain is in two batches |
| `InputRuns.RepliesAccepted` | nogil_data_plane/input_domain_list.py:23-33 | every snapshot in every reply passes the receiver's check and is the actor's own |
| `InputFacade.StepAgrees` | nogil_data_plane/input_domain_list.py:117-189 | an answered call keeps the facade's checkout equal to the actor's entry while the actor has not failed |
| `InputFacade.ReliableRunsAgree` | nogil_data_plane/input_domain_list.py:100-189 | in every run with answered calls and one facade per id, all facades agree with a running actor |
| `InputFacade.AgreementAfterLoss` | nogil_data_plane/input_domain_list.py:114-145 | after one executed call without a reply they still agree exactly when the call was no accepted pick, publish or completion, in terms of registration, size, token and what the storage returns |
| `InputFacade.LostPickStrands` | nogil_data_plane/input_domain_list.py:117-124 | an accepted pick whose reply is lost leaves an entry its facade does not know of |
| `InputFacade.LostPickForever` | nogil_data_plane/input_domain_list.py:117-189 | in every later state, whatever anybody calls and however the calls fare: the entry stays, `shared_idle` is false, the facade knows of no checkout, and every further pick of any size is refused and changes nothing |
| `InputFacade.StrandedFailure` | nogil_data_plane/input_domain_list.py:84-94 | the stranded worker's own calls fail the actor exactly when they report its failure or close a registered facade, and reach the actor |
| `InputFacade.CloseCloses` | nogil_data_plane/input_domain_list.py:183-189 | closing always ends closed and forgets nothing else; it raises exactly when the actor has to be asked and does not answer or does not know the worker |
| `EndToEnd.RemoteIsDirect` | nogil_data_plane/rpc_serializer.py:25-55 | a call whose request and reply are encoded, framed and decoded, and that leaves the facade usable, is the call on the actor itself |
| `EndToEnd.StepMatches` | nogil_data_plane/rpc_batched_domain_list.py:78-241 | one call through facade, codec, frame and actor keeps the facade usable exactly when its messages can be encoded and the call does not fail beyond the facade; it then gives the local answer and leaves the local storage, checkout and version |
| `EndToEnd.ReportFollows` | nogil_data_plane/rpc_batched_domain_list.py:243-249 | a facade that reports its worker as failed gets the actor's state, in which the worker has left, and is itself unchanged |
| `EndToEnd.RunMatches` | nogil_data_plane/rpc_batched_domain_list.py:107-241 | from matching states, every program of an unbroken facade gives the local answers and ends in matching states |
| `EndToEnd.SharedListIsLocalList` | nogil_data_plane/rpc_batched_domain_list.py:107-241 | any finite program of picks, adds, publishes, donations, completions, sorts, reads, lengths and snapshots through facade, codec, frame and actor gives the answers of the same program on the storage itself, with batches clipped to the pending count, and the same storage |
| `InputEndToEnd.StepFollows` | nogil_data_plane/input_domain_list.py:114-156 | one answered call of `RpcInputDomainList` gives the local answer and leaves the local storage, batch on hand, failure and version, whatever the storage returns or raises |
| `InputEndToEnd.RunMatches` | nogil_data_plane/input_domain_list.py:114-156 | the same for every program from matching states |
| `InputEndToEnd.SharedListIsLocalList` | nogil_data_plane/input_domain_list.py:100-156 | any finite program of picks, adds, publishes, donations, completions, sorts and snapshots with answered calls gives the answers of the same program on the storage itself, and the same storage, batch on hand and failure |
| `InputEndToEnd.LeavingFollows` | nogil_data_plane/input_domain_list.py:177-189 | closing or reporting a failure takes the worker out, with a checkout as a failure; reporting forgets registration and checkout and gives the actor's state |
| `InputEndToEnd.RemoteIsDelivered` | nogil_data_plane/rpc_serializer.py:25-55 | over codec and frame a call is answered, or loses its request, or its reply, exactly when that message cannot be encoded |
| `DomainPacketCodecs.EncodeRun.Append` | nogil_data_plane/domain_packet_codec.py:83-94 | appends descriptor, chunk and size in place, or refuses on the byte or buffer limit, as the function on states says |
| `DomainPacketCodecs.EncodeRun.VisitLeaf` | nogil_data_plane/domain_packet_codec.py:66-127 | every leaf case in place: ranges, finiteness, string limits, tensors densified before their sizes are taken |
| `DomainPacketCodecs.EncodeRun.Visit` | nogil_data_plane/domain_packet_codec.py:59-142 | the recursive walk over mutable tables computes the specified node, tables, counters and error, in the specified number of calls also when refused |
| `DomainPacketCodecs.DecodeRun.Visit` | nogil_data_plane/domain_packet_codec.py:204-249 | the recursive walk with its counter computes the specified value, count and error, in the specified number of calls also when refused |
| `DomainPacketCodecs.DecodeRun.VisitPairs` | nogil_data_plane/domain_packet_codec.py:229-239 | filling a dictionary in place, refusing malformed pairs, equal keys and unhashable keys |
| `DomainPacketCodecs.DomainPacketCodec.RegisterAdapter` | nogil_data_plane/domain_packet_codec.py:44-50 | refused exactly when the tag is empty or taken or the class is taken; otherwise both tables gain it and stay in step |
| `DomainPacketCodecs.DomainPacketCodec.Encode` | nogil_data_plane/domain_packet_codec.py:52-149 | the imperative encoder returns the specified packet or error, within the bound on calls and depth |
| `DomainPacketCodecs.DomainPacketCodec.ReadTable` | nogil_data_plane/domain_packet_codec.py:163-200 | the descriptor loop returns the specified buffers and end |
| `DomainPacketCodecs.DomainPacketCodec.Decode` | nogil_data_plane/domain_packet_codec.py:151-250 | the imperative decoder returns the specified value or error, within the bound on calls and depth |
| `BatchedActor.BatchedDomainListActor.Register` | nogil_data_plane/batched_domain_list_actor.py:81-90 | the method's new state and reply are those of the step function, on every argument |
| `BatchedActor.BatchedDomainListActor.PickOut` | nogil_data_plane/batched_domain_list_actor.py:92-126 | the same: sticky failures on misuse, clipping to the pending count, a raising storage left as it is |
| `BatchedActor.BatchedDomainListActor.Add` | nogil_data_plane/batched_domain_list_actor.py:128-156 | the same: validation and storage errors become a sticky failure, success ends the worker's checkout if any |
| `BatchedActor.BatchedDomainListActor.PublishChildren` | nogil_data_plane/batched_domain_list_actor.py:163-180 | the same: a wrong token or flag only raises, a raising storage fails the actor and moves the version, success ends the worker's own checkout |
| `BatchedActor.BatchedDomainListActor.Donate` | nogil_data_plane/batched_domain_list_actor.py:182-188 | the same: refused during a checkout, otherwise what `add` does |
| `BatchedActor.BatchedDomainListActor.CompletePickToLocal` | nogil_data_plane/batched_domain_list_actor.py:190-203 | the same: without a checkout a sticky failure, with a wrong token only an error, otherwise exactly the worker's entry is removed |
| `BatchedActor.BatchedDomainListActor.CloseWorker` | nogil_data_plane/batched_domain_list_actor.py:208-216 | the same: leaving with a checkout is a failure |
| `BatchedActor.BatchedDomainListActor.WorkerFailed` | nogil_data_plane/batched_domain_list_actor.py:218-228 | the same, for unknown and unhashable ids too |
| `BatchedActor.BatchedDomainListActor.Fail` | nogil_data_plane/batched_domain_list_actor.py:230-234 | the same: the first reason is kept |
| `BatchedActor.BatchedDomainListActor.Sort` | nogil_data_plane/batched_domain_list_actor.py:242-251 | the same: a raising sort is a sticky failure and moves the version |
| `BatchedActor.BatchedDomainListActor.GetItem` | nogil_data_plane/batched_domain_list_actor.py:266-277 | the same: stale versions, negative positions and positions out of range |
| `BatchedActor.BatchedDomainListActor.Invoke` | nogil_data_plane/batched_domain_list_actor.py:81-277 | remote invocation by name is the step function, on every command |
| `BatchedFacade.RpcBatchedDomainList.Call` | nogil_data_plane/rpc_batched_domain_list.py:78-99 | nothing is sent when closed, broken or stopped; a remote error or a missing reply breaks the facade |
| `BatchedFacade.RpcBatchedDomainList.PickOut` | nogil_data_plane/rpc_batched_domain_list.py:107-133 | the method's new facade state, actor state and answer are those of the step function, malformed replies included |
| `BatchedFacade.RpcBatchedDomainList.Add` | nogil_data_plane/rpc_batched_domain_list.py:135-159 | the same: the checkout is forgotten exactly when the actor replied ok |
| `BatchedFacade.RpcBatchedDomainList.CompletePickToLocal` | nogil_data_plane/rpc_batched_domain_list.py:161-174 | the same: refused locally without a batch or with another token, released on an ok reply |
| `BatchedFacade.RpcBatchedDomainList.PublishChildren` | nogil_data_plane/rpc_batched_domain_list.py:181-192 | the same: only the facade's own checkout is sent, `None` included when there is none |
| `BatchedFacade.RpcBatchedDomainList.CompletePruned` | nogil_data_plane/rpc_batched_domain_list.py:194-202 | the same: never sent without a checkout |
| `BatchedFacade.RpcBatchedDomainList.Donate` | nogil_data_plane/rpc_batched_domain_list.py:204-211 | the same: refused locally during a checkout, changes no facade state |
| `BatchedFacade.RpcBatchedDomainList.State` | nogil_data_plane/rpc_batched_domain_list.py:213-216 | the same: an inconsistent record raises without breaking the facade |
| `BatchedFacade.RpcBatchedDomainList.Snapshot` | nogil_data_plane/rpc_batched_domain_list.py:218-220 | the same for snapshots |
| `BatchedFacade.RpcBatchedDomainList.Sort` | nogil_data_plane/rpc_batched_domain_list.py:222-224 | the same: a reply that is not ok raises |
| `BatchedFacade.RpcBatchedDomainList.GetItem` | nogil_data_plane/rpc_batched_domain_list.py:233-238 | the same: a reply without a proper record raises |
| `BatchedFacade.RpcBatchedDomainList.WorkerFailed` | nogil_data_plane/rpc_batched_domain_list.py:243-249 | the same: keeps the facade's checkout |
| `BatchedFacade.RpcBatchedDomainList.Close` | nogil_data_plane/rpc_batched_domain_list.py:259-270 | the same: a broken facade closes without calling the actor |
| `InputActor.InputDomainListActor.RegisterWorker` | nogil_data_plane/input_domain_list.py:43-47 | the method's new state and reply are those of the step function |
| `InputActor.InputDomainListActor.PickOutBatch` | nogil_data_plane/input_domain_list.py:49-58 | the same: misuse raises without failing the actor, a raising storage fails it |
| `InputActor.InputDomainListActor.StoreAdd` | nogil_data_plane/input_domain_list.py:60-64 | the shared add: version moved either way, failure written on a raise |
| `InputActor.InputDomainListActor.Publish` | nogil_data_plane/input_domain_list.py:66-69 | the same, with the comparison that lets `None` match a missing entry |
| `InputActor.InputDomainListActor.Donate` | nogil_data_plane/input_domain_list.py:70-73 | the same: refused during a checkout, never touches one |
| `InputActor.InputDomainListActor.Complete` | nogil_data_plane/input_domain_list.py:74-76 | the same: `None` against no checkout passes the comparison and then raises, with nothing changed |
| `InputActor.InputDomainListActor.Sort` | nogil_data_plane/input_domain_list.py:82 | the same: a raising sort is not recorded |
| `InputActor.InputDomainListActor.CloseWorker` | nogil_data_plane/input_domain_list.py:84-88 | the same: leaving with a checkout is a failure, also on actors that already failed the worker leaves |
| `InputActor.InputDomainListActor.WorkerFailed` | nogil_data_plane/input_domain_list.py:89-94 | the same, with the reported cause kept in the reason |
| `InputActor.InputDomainListActor.Fail` | nogil_data_plane/input_domain_list.py:95-98 | the same: the first reason is kept and only it moves the version |
| `InputActor.InputDomainListActor.Invoke` | nogil_data_plane/input_domain_list.py:14-98 | remote invocation by name is the step function, on every command |
| `InputFacade.RpcInputDomainList.Call` | nogil_data_plane/input_domain_list.py:115-116 | nothing is sent when closed; a request or reply that is lost, or a remote error, is an exception and nothing is remembered |
| `InputFacade.RpcInputDomainList.PickOutBatch` | nogil_data_plane/input_domain_list.py:117-124 | the method's new facade state, actor state and answer are those of the step function, answered or with request or reply lost |
| `InputFacade.RpcInputDomainList.Add` | nogil_data_plane/input_domain_list.py:127-131 | the same: a donation or a publish, by its own checkout |
| `InputFacade.RpcInputDomainList.PublishChildren` | nogil_data_plane/input_domain_list.py:132-135 | the same: only the facade's own checkout is sent |
| `InputFacade.RpcInputDomainList.Donate` | nogil_data_plane/input_domain_list.py:136-139 | the same: refused locally during a checkout |
| `InputFacade.RpcInputDomainList.CompletePruned` | nogil_data_plane/input_domain_list.py:140-145 | the same: never sent without a checkout, which is forgotten only after a reply |
| `InputFacade.RpcInputDomainList.Sort` | nogil_data_plane/input_domain_list.py:146-147 | the same: changes no facade state |
| `InputFacade.RpcInputDomainList.Snapshot` | nogil_data_plane/input_domain_list.py:155-156 | the same: an inconsistent snapshot raises |
| `InputFacade.RpcInputDomainList.WorkerFailed` | nogil_data_plane/input_domain_list.py:177-182 | the same: the facade forgets registration and checkout even if the reported state is refused |
| `InputFacade.RpcInputDomainList.Close` | nogil_data_plane/input_domain_list.py:183-189 | the same: closed even if the actor raises, and nothing is sent when not registered |

## Left out

- Subclasses: values whose class derives from a built-in (IntEnum, namedtuple, ValueError subclasses) are flattened by the isinstance chain; the model has the exact built-in classes only.
- JSON text and UTF-8: printing, parsing and integer-to-double conversion are parameters of the codec; a parser's own limits (digits of an integer literal, nesting) and strings with lone surrogates, which `encode("utf-8")` refuses, are not modelled.
- PyTorch: devices, autograd, dtype numerics, sparse layouts beyond "unsupported", and allocation failure for empty tensors with very large dimensions; `.to(device)` is a parameter that the end-to-end result takes to keep contents.
- MapIdentity: values carry tensor contents, so that a snapshot shares no memory with its source is not expressed; it rests on `clone`, and `MapReachesEach` shows that every tensor of the result went through it. The `owners` list that keeps buffers alive is not modelled.
- DomainPacketCodecs.DecodeRun.VisitPairs: a packet that uses one descriptor twice as a tensor key of the same dictionary is refused by Python, for which the two are one object; the model takes them as different keys. Custom objects as keys are taken as unhashable, as plain dataclasses are.
- MapEntriesEach: a transform that returned one and the same tensor object for two tensor keys would merge them; the model compares tensor keys by position.
- ReadFits: as `AcceptedTreeFits`, node by node.
- AcceptedTreeFits: the size, depth and leaf bounds hold as far as constructors add nothing of their own; for dataclasses with defaults `AcceptedSize`, `AcceptedDepth` and `AcceptedLeaves` say exactly what is added. Other constructors that add something are not taken apart.
- Dataclasses: fields with `init=False` and constructors with a `__post_init__` that changes fields are not modelled.
- Adapter functions: `encode_fields` is folded into the heap (an instance shows the object it returns, or that it raises), so an adapter that returns something new on each call is not modelled.
- Exceptions: classes are told apart only where a caller's behaviour depends on them; of `encode`, `decode` and `map_tensors` the exact results say what is refused, not which class is raised first when several apply; message text is modelled for stored failure reasons (without `repr` escaping), chaining is not.
- Transport: sockets, the RPC runtime, server start and stop, and the request envelope of nogil_rpc, which is not part of this model; a call is answered, lost before execution, or executed with its reply lost, now or later.
- Storage: the real lists and adapters of alpha-beta-CROWN, pickle bootstrap and `uuid4`; storages are deterministic functions of their state, tokens are fresh parameters.
- Queries: `get_min_domain`, top-k and progress queries, the metadata attributes of input lists, and the key checks of `add` payloads (a parameter) would only add easy members.
- VersionPinsState: for `BatchedDomainListActor` it speaks of running states only; `VersionMisses` says exactly why.
- ReliableRunsAgree: needs every call answered, because `RpcInputDomainList` keeps no broken flag; what a lost reply does is stated exactly by `AgreementAfterLoss` and `LostPickForever`.
- Global termination and disconnect detection belong to the control plane and the server.
