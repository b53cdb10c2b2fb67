# A model of the cocaine engine core

This project models six pieces of the cocaine application engine, drawn from seven of its source files, and proves properties of each.

- **Slave lifecycle** (`slave.dfy`, module `Slaves`). A slave is first `unknown`. It then becomes `alive`, with the inner states `idle` and `busy`. Finally it is `dead`, which is terminal. The in-flight job lives in the `alive` state. Each of the four events (heartbeat, terminated, invoked, choked) is a method on the `Slave` class. Each method returns whether the machine reacted. A pure transition table `Step` specifies the methods.
- **Native driver** (`native_server.dfy`, module `NativeServer`). The socket is a list of frames, each with its "more" flag, plus a cursor. `process` reads one request unit:
  - the route frames, up to an empty delimiter;
  - then tiers of (type, header), each followed by a body;
  - it rejects a unit with an empty route, skips a tier that does not decode, answers a header without a body with `request_error`, and enqueues every other job.

  The engine's queue and the outbound socket are lists the driver appends to. The frames a job writes are modelled too: a chunk, an error, and the end of the stream.
- **Dispatch trees** (`dispatch_tree.dfy`, module `DispatchTrees`; `traverse.dfy`, module `Traverse`). A dispatch tree maps event ids to an alias and an optional subtree. `traverse` folds over a protocol's event list, and `recursive_tag` yields no tree. Protocols are maps from tag to events, and an acyclic rank map ensures termination.
- **Response aggregation** (`json.dfy`, module `Json`; `response.dfy`, module `Responses`). `Response` is a class holding a JSON document. `push` stores the first result for a key as it is, makes a list on the second result, and appends later ones. `abort` either replaces the document with `{"error": ...}` or pushes an error object under one key.
- **Cached responses** (`cached_response.dfy`, module `CachedResponses`). A class with the eight fields of `cached_response_t`.
  - The data constructor checks a size bound.
  - Equality compares UUIDs only.
  - Assignment copies five fields and keeps the route, the code and the error message.
- **URI helper** (`uri.dfy`, module `Uri`). The components come from an external parser and are taken as given. `query()` is the hand-written `&`/`=` splitter, with its `size_t` arithmetic written out: `npos` is 2^64-1, the substring length is clamped, and the subtraction wraps. `port()` and `path()` are modelled, and `source()` is the `source` field the constructor keeps. `scheme()`, `userinfo()`, `host()` and `fragment()` are plain reads of fields of `Components`.

`wrappers.dfy` holds the `Option` and `Result` datatypes.

## Model

| member | source | states |
|---|---|---|
| Slaves.StepTable | include/cocaine/slaves/base.hpp:66-125 | the transition table. A heartbeat takes `unknown` to `alive` in `idle`, and is an in-state reaction while `alive`. `terminated` takes `unknown` and `alive` to `dead`. `invoked` is handled only in `idle` (to `busy`, recording the job). `choked` is handled only in `busy` (to `idle`, emptying the job slot). `dead` handles nothing |
| Slaves.StepConsistent | include/cocaine/slaves/base.hpp:76-118 | every transition keeps the invariant that a job is held exactly when the slave is `busy` |
| Slaves.RunConsistent | include/cocaine/slaves/base.hpp:76-118 | the invariant holds after any sequence of events from a consistent state |
| Slaves.DeadIsTerminal | include/cocaine/slaves/base.hpp:120-125 | from `dead`, no event sequence leads anywhere else or is handled |
| Slaves.RunReachesDeadForever | include/cocaine/slaves/base.hpp:72-125 | once `terminated` has been processed, the slave is `dead` after every later event, so its job slot is gone |
| Slaves.JobEventsAlternate | include/cocaine/slaves/base.hpp:98-118 | the handled `invoked` and `choked` events of any run alternate, starting with `invoked` |
| Slaves.Slave.constructor | include/cocaine/slaves/base.hpp:36-42 | a new slave is in `unknown` and holds no job |
| Slaves.Slave.OnHeartbeat | include/cocaine/slaves/base.hpp:66-83 | the new state and the handled flag are the heartbeat row of the table; handled exactly when not `dead` |
| Slaves.Slave.OnTerminated | include/cocaine/slaves/base.hpp:66-125 | the terminated row of the table, so the slave ends `dead` |
| Slaves.Slave.OnInvoked | include/cocaine/slaves/base.hpp:85-105 | the invoked row; handled exactly when the slave was `idle`, and it is then `busy` with the job |
| Slaves.Slave.OnChoked | include/cocaine/slaves/base.hpp:86-113 | the choked row; handled exactly when the slave was `busy`, and it is then `idle` with no job |
| Slaves.Slave.BusyJob | include/cocaine/slaves/base.hpp:90-117 | a `busy` slave's `job()` is the job held by the enclosing `alive` state |
| DispatchTrees.Empty | include/cocaine/rpc/tree.hpp:44 | a default-constructed tree has no ids |
| DispatchTrees.Copy | include/cocaine/rpc/tree.hpp:45-54 | copy and move construction and assignment give the same mapping |
| DispatchTrees.Put | include/cocaine/rpc/traverse.hpp:47-50 | `result[id] = (alias, next)` adds the id, stores the entry, and leaves every other id unchanged |
| Traverse.TraverseTag | include/cocaine/rpc/traverse.hpp:67-86 | `traverse` yields no tree exactly for `recursive_tag` |
| Traverse.FillKeys | include/cocaine/rpc/traverse.hpp:39-63 | the fold adds exactly the ids of the events to the tree's keys |
| Traverse.FillKeeps | include/cocaine/rpc/traverse.hpp:39-63 | ids that no event carries keep their entries |
| Traverse.FillLastWins | include/cocaine/rpc/traverse.hpp:43-53 | the entry of an id comes from the last event with that id (alias, and the traverse of its transition) |
| Traverse.RecursiveTagHasNoTree | include/cocaine/rpc/traverse.hpp:81-86 | `traverse<recursive_tag>` is none |
| Traverse.TraverseNamed | include/cocaine/rpc/traverse.hpp:39-79 | any other tag gives a tree whose keys are its events' ids. Each entry has the alias of the last event with that id and the traverse of that event's transition tag |
| Traverse.NoEventsEmptyTree | include/cocaine/rpc/traverse.hpp:56-79 | a tag without events gives a present, empty tree |
| Traverse.ExampleTree | include/cocaine/rpc/traverse.hpp:39-86 | a two-level protocol whose second event leads to `recursive_tag` builds the expected nested tree |
| Json.Member | include/cocaine/response.hpp:32-35 | reading `v[key]` gives the member, or null when it is absent |
| Json.SetMember | include/cocaine/response.hpp:32-49 | assigning `v[key]` stores the value, adds the key (a null value turns into an object), and keeps the other members |
| Responses.ErrorObject | include/cocaine/response.hpp:53-60 | `{"error": error}` is an object with the single key "error" |
| Responses.PushCases | include/cocaine/response.hpp:31-51 | pushing onto a null slot stores the result as it is; onto a list it appends at the end; onto any other value it makes `[old, new]`; the document keeps its shape |
| Responses.PushChangesOnlyItsSlot | include/cocaine/response.hpp:31-51 | `push` changes only `results[key]`; the other keys of "results" and the other members of the document keep their values |
| Responses.PushManyMakesList | include/cocaine/response.hpp:31-51 | pushing n >= 2 results (the first neither null nor a list) under a fresh key leaves exactly the list of those results, in order |
| Responses.AppendAll | include/cocaine/response.hpp:37-40 | once the slot holds a list, consecutive pushes append their results in order |
| Responses.Response.constructor | include/cocaine/response.hpp:16-19 | the response holds the given route and a null document |
| Responses.Response.Push | include/cocaine/response.hpp:31-51 | the new document is the old one with the result pushed under the key |
| Responses.Response.Abort | include/cocaine/response.hpp:53-56 | the document becomes exactly `{"error": error}`, whatever it held |
| Responses.Response.AbortKey | include/cocaine/response.hpp:58-63 | `abort(key, error)` is `push(key, {"error": error})` |
| Responses.Response.Root | include/cocaine/response.hpp:66-68 | `root()` returns the current document |
| Responses.Response.Route | include/cocaine/response.hpp:70-72 | `route()` returns the route fixed at construction |
| CachedResponses.Assigned | src/dealer/cached_response.cpp:82-97 | assignment takes the uuid, path, data, received timestamp and container size from the right-hand side, and keeps the route, code and error message of the target |
| CachedResponses.AssignedProperties | src/dealer/cached_response.cpp:82-102 | after `a = b`, `a == b`. Assigning the same source twice changes nothing more. Self-assignment changes nothing |
| CachedResponses.SameResponseIsEquivalence | src/dealer/cached_response.cpp:99-102 | equality by uuid is reflexive, symmetric and transitive, and other fields do not affect it |
| CachedResponses.CheckDataSize | src/dealer/cached_response.cpp:53-55 | the size check fails exactly when the data is larger than the limit, with `resource_error` |
| CachedResponses.CachedResponse.constructor | src/dealer/cached_response.cpp:31-35 | a default response has code 0 and an empty uuid, route, path, data and error message |
| CachedResponses.CachedResponse.Copy | src/dealer/cached_response.cpp:36-40 | the copy constructor gives the default fields with the five copied ones assigned, so code 0 and an empty route and error message |
| CachedResponses.CachedResponse.WithError | src/dealer/cached_response.cpp:60-72 | the error constructor stores the uuid, route, path, code and message, and no data |
| CachedResponses.CachedResponse.FromData | src/dealer/cached_response.cpp:43-58 | the data constructor fails with `resource_error` exactly when the data is over the limit. Otherwise it stores the uuid, route, path and data, with code 0 |
| CachedResponses.CachedResponse.Assign | src/dealer/cached_response.cpp:82-97 | `operator=` makes the state `Assigned(old, rhs)`; a self-assignment changes nothing; afterwards the two compare equal |
| CachedResponses.CachedResponse.SetReceivedTimestamp | src/dealer/cached_response.cpp:134-138 | only the received timestamp changes |
| CachedResponses.CachedResponse.SetCode | src/dealer/cached_response.cpp:140-143 | only the code changes |
| CachedResponses.CachedResponse.SetErrorMessage | src/dealer/cached_response.cpp:145-148 | only the error message changes |
| CachedResponses.EqualsIsUuidEquality | src/dealer/cached_response.cpp:99-107 | `==` holds exactly when the uuids are equal, and `!=` exactly when they differ |
| NativeServer.NewJob | src/drivers/native_server.cpp:20-24 | the job takes the request's id and policy and the unit's route |
| NativeServer.ReadRoute | src/drivers/native_server.cpp:61-71 | the route loop consumes at least one frame and stops at a frame whose "more" flag it reports |
| NativeServer.ReadRouteShape | src/drivers/native_server.cpp:61-71 | the route is the run of non-empty frames in arrival order. It ends at the first empty frame (consumed, not part of the route) or at the first frame without "more" |
| NativeServer.UnitAccepted | src/drivers/native_server.cpp:56-77 | a unit is accepted exactly when its route is non-empty and something follows it; a rejected unit enqueues and sends nothing |
| NativeServer.TierOutcome | src/drivers/native_server.cpp:79-112 | the tier loop's jobs all carry the unit's route; it sends at most one frame, the missing-body error |
| NativeServer.JobsInHeaderOrder | src/drivers/native_server.cpp:79-112 | each enqueued job is made from a tier that decodes, at strictly increasing positions: id and policy from its header, the unit's route, the next frame as its body |
| NativeServer.MissingBodyFails | src/drivers/native_server.cpp:104-109 | a decodable header that ends the message sends `error(request_error, "missing request body")` and enqueues nothing more |
| NativeServer.UndecodableTierSkipped | src/drivers/native_server.cpp:85-89 | a tier that does not decode adds nothing; the loop goes on with the next tier |
| NativeServer.TiersOfWellFormed | src/drivers/native_server.cpp:79-112 | tiers that all decode, each with a body, enqueue exactly their jobs in order and send nothing |
| NativeServer.WellFormedUnit | src/drivers/native_server.cpp:56-112 | a unit made of a non-empty route, a delimiter and decodable tiers with bodies enqueues exactly those jobs and consumes the whole unit |
| NativeServer.NoTiersRejected | src/drivers/native_server.cpp:73-77 | a route with nothing after it is rejected |
| NativeServer.NativeServer.constructor | src/drivers/native_server.cpp:41-43 | a new driver has its cursor at the first frame, nothing queued and nothing sent |
| NativeServer.NativeServer.Receive | src/drivers/native_server.cpp:62 | receiving returns the frame under the cursor and advances the cursor by one |
| NativeServer.NativeServer.ReactChunk | src/drivers/native_server.cpp:26-31 | a chunk sends the job's tag marked more, then the payload |
| NativeServer.NativeServer.ReactError | src/drivers/native_server.cpp:33-35 | an error sends one `error(id, code, message)` frame |
| NativeServer.NativeServer.ReactChoked | src/drivers/native_server.cpp:37-39 | a choke sends one tag frame marked completed |
| NativeServer.RoundThenRest | src/drivers/native_server.cpp:79-112 | the tier loop is one round followed by the loop from the frame that round stopped at, its jobs and frames first |
| NativeServer.NativeServer.ReceiveTier | src/drivers/native_server.cpp:81-111 | one round receives the type frame, the header and the body, as far as the socket announces more. It enqueues the job, sends the missing-body error, or skips the tier, as `TierRound` describes |
| NativeServer.NativeServer.ReceiveRoute | src/drivers/native_server.cpp:61-71 | the do-while loop reads the route `ReadRoute` describes and leaves the cursor after it |
| NativeServer.NativeServer.ReceiveTiers | src/drivers/native_server.cpp:79-112 | the tier loop appends exactly the jobs and frames `ReadTiers` describes |
| NativeServer.NativeServer.Process | src/drivers/native_server.cpp:56-117 | with nothing pending nothing changes; otherwise one unit is read as `ReadUnit` describes, its jobs are enqueued and its frames sent |
| Uri.Construct | include/cocaine/helpers/uri.hpp:27-51 | construction fails exactly when the parser fails, with the parser's error code; otherwise it keeps the source text as given and the parser's components |
| Uri.Find | include/cocaine/helpers/uri.hpp:97-98 | `find_first_of` returns `npos`, or a position at or after the start that holds the character |
| Uri.SegmentPairCases | include/cocaine/helpers/uri.hpp:97-105 | without '=' the segment adds nothing. Otherwise the key runs from the start to the next '='. The value runs to the next '&' when it comes after that '=', and otherwise to the end of the text |
| Uri.QueryLoopKeeps | include/cocaine/helpers/uri.hpp:96-108 | a key already in the map keeps its value for the rest of the loop, so the first occurrence wins |
| Uri.NoDelimiterAddsNothing | include/cocaine/helpers/uri.hpp:97-100 | when no '=' occurs from the current start on, the rest of the loop adds nothing |
| Uri.RoundsCountAmpersands | include/cocaine/helpers/uri.hpp:96-108 | the loop runs once per '&' in the text plus once |
| Uri.WellFormedQuery | include/cocaine/helpers/uri.hpp:89-112 | for `k1=v1&...&kn=vn` with no '=' or '&' in a key and no '&' in a value, the keys are exactly k1..kn and each maps to the value of its first occurrence |
| Uri.DelimiterPastAmpersand | include/cocaine/helpers/uri.hpp:97-104 | the '=' search runs past the '&': `"a&b=c"` yields `{"a&b": "c", "b": "c"}` |
| Uri.Query | include/cocaine/helpers/uri.hpp:89-112 | the do-while loop computes the query map `QueryLoop` describes; no query text gives an empty map. A ghost counter shows the loop body runs once per '&' in the query text plus once |
| Uri.Path | include/cocaine/helpers/uri.hpp:77-87 | `path()` returns the segment texts in linked-list order |
| Uri.Port | include/cocaine/helpers/uri.hpp:65-75 | the port fits an `unsigned int` and is 0 without port text |
| Uri.PortOfDecimal | include/cocaine/helpers/uri.hpp:65-75 | a port text holding the decimal digits of n, followed by a non-digit or nothing, reads as n, or as the largest `unsigned int` when n does not fit |
| Uri.PortWithoutDigits | include/cocaine/helpers/uri.hpp:65-75 | a port text that does not start with a digit reads as 0 |

## Left out

- The heartbeat timer, `slave_t::timeout` and `reap()`: timers and process control. Heartbeat and termination are plain events.
- The bodies of `slave_t::react(heartbeat)`, `alive::react` and `~alive()` are declared in base.hpp, but their bodies are not modelled. The model has `invoked` record the job in `alive`'s slot and `choked` clear it. Leaving `alive` drops the slot.
- Events with no reaction: boost.statechart discards them, so the methods leave the state as it was and return `handled = false`. An event with no reaction is not treated as an error.
- The libev watcher and processor restart (native_server.cpp:113-116), `syslog`, and `info()` statistics: I/O and bookkeeping.
- The ZeroMQ/msgpack decoding inside `recv_multi`: the decoder is a parameter. A tier is assumed to consume its type frame and, when announced, its header frame. A `runtime_error` from the job constructor is folded into the decoder's failure, because the driver skips both the same way.
- The debug-only assertion that a tier's type frame matches the type in its decoded header (native_server.cpp:91-92): `Request` carries no type, so a mismatching tier is enqueued. The assertion has no effect when NDEBUG is defined.
- The body of the native job's `send`: each message is modelled as one frame addressed to the route.
- The engine's queue internals: `enqueue` appends to a list.
- The `boost::mutex` locking in `cached_response_t` and the engine: concurrency. Every operation is atomic.
- `MAX_RESPONSE_DATA_SIZE`: its definition is not part of this model, so it is a parameter.
- CachedResponses.CachedResponse.constructor: the timestamp and the container size are left unconstrained. The C++ constructors leave them uninitialised.
- The `response_t` destructor, which seals the response into the core, and `wait()` with its future binding: these depend on classes outside this model.
- The uriparser calls in the `uri_t` constructor and destructor: the parser is a function parameter. The error text of `strerror_r` is modelled by the error code.
- Uri.Port: whitespace and sign handling of `istringstream` are not modelled. The text is read as written by the parser, which yields digits only for a port.
- Uri.Query: requires the query text to be shorter than `npos`, which any string in memory is.
- JSON real numbers: floating point.
- Policies and request headers are opaque byte strings.
