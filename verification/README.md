# Verified models of effect-golang-web

Dafny models of the parts of this library whose behaviour no finite number of
examples settles, with proofs of what they promise. Four areas:

- **Routing.** Patterns, the segment tree built by insertion and walked with
  backtracking, assembly of a surface, dispatch, and path filling on the client
  side. The tree is modelled twice: as values (`RouteTree`) and as linked mutable
  nodes with a shared backing array for the bindings (`TreeNodes`). Both are tied
  to a flat specification over the list of routes (`RouteSpec`).
- **Reading an upstream.** One reading for however many callers want it, with the
  store around it, as a step relation over callers, deferreds, the `pending` map,
  detached readings and the store (`SingleFlight`, `SingleFlightRuns`); asking
  and asking again, and the cache key (`UpstreamAsk`).
- **The two in-process brokers.** Each is a state with one function per lock or
  channel operation (`Broker091`, `Broker10`), objects whose methods compute those
  functions (`InProcess091`, `InProcess10`), and every interleaving of goroutines
  with what they hold between two locks as sites of their own (`Broker091Runs`,
  `Broker10Runs`, `Broker10Order`). `Ledger` is the conservation argument both share.
- **Translations.** Header and property conversion (`FieldValues`,
  `FieldConversions`), codec combinators (`Codecs`, `CodecTrees`, `CodecPaths`) and
  the plain and phased bodies of a route (`RouteBodies`).

`dafny verify dfyconfig.toml` checks everything.

## What the proofs turned up

- A reading's claim and its fork are two steps, and a caller does come to stand
  between them (`LeaderArises`). Interrupting a caller is harmless to the others
  exactly when it is not there (`InterruptionIff`); if it is, its key is stranded and
  everybody who joins afterwards waits for ever (`InterruptedLeaderStrandsAll`). The
  other results on the protocol assume that a leader is not interrupted there.
- Two services share cache keys exactly when one's name followed by a colon begins
  the other's, as "a" and "a:b" (`NamesShareIff`); then the longer-named one's
  every request has the key of a request of the other (`LongerNameCollides`).
- Within one service a path with a space can give two requests one key
  (`PathWithSpaceCollides`); `RequestsShareIff` states exactly which.
- A path with a question mark in it can have the key of a shorter path with a query;
  `TargetsShareIff` states exactly which do.
- `Struct` and a nest of `Zip`s accept the same lists of any codecs a program can
  make (`StructValidAsZip`). They would differ only on a lone codec that reads one
  parameter twice and is usable all the same (`StructDeclaresAsZip`); the exported
  constructors make none (`BuiltDistinct`).
- `encodeOutput` does its work when it is handed the value, which is before the
  encode phase opens: the span and the sample named `encode` enclose none of the
  encoding (`EncodePhaseIsEmpty`), although the comments on phases say that encoding is
  measured. In the same way whatever a handler does before it returns its effect
  comes before the handle phase (`HandlePhaseEncloses`).
- A sampler that returns no end function for a phase leaves that phase open, the
  decode phase on every request (`EndlessSamplerUntidy`); `PhasesTidyIff` states
  exactly when phases are opened and closed one at a time.
- `Modify` counts an attempt exactly when `UndeliverableHere` is false, whatever
  `DeliveryFailed` says, and the count is a `uint32` that wraps.
- No publish on the 0-9-1 broker fails with tags issued: only the default exchange
  can name a queue that is not there, and it names one queue only (`PublishPlaces`).

## Model

| member | source | states |
|---|---|---|
| Patterns.ParsePattern | web/path.go:35-58 | the loop with its `captured` map computes the recursive parse, errors included |
| Patterns.RenderPattern | web/path.go:96-109 | the rendering loop computes `Render` |
| Patterns.ParseIffRender | web/path.go:35-109 | a path parses to a segment list if and only if the list is well formed (brace- and slash-free literals, distinct non-blank slash-free names, captures not ending in "...", wildcard only last) and renders to that path |
| Patterns.ParseRefusedIff | web/path.go:35-86 | a path is refused for what is wrong with it first: no leading slash, or else the first part that has a brace but is no capture, is not closed, is a wildcard with parts after it, has a blank name, or captures a name an earlier part captured |
| Patterns.BlankIff | web/path.go:81-86 | a name is blank if and only if trimming white space at both ends leaves nothing |
| Patterns.PatternRoundTrips | web/path.go:35-109 | rendering what was parsed gives the path back, and parsing is injective |
| RouteSpec.WinnerUnique | web/route_tree.go:106-137 | over compatible routes at most one route wins a request |
| RouteTree.InsertHolds | web/route_tree.go:53-104 | an insertion succeeds if and only if the new route conflicts with none the tree holds, and then the tree holds exactly one route more |
| RouteTree.EmptyAccepts | web/route_tree.go:53-104 | a newly made node refuses nothing, so a failed insertion created no node |
| RouteTree.ResolveAnswers | web/route_tree.go:106-149 | the backtracking walk finds a handler if and only if a route of that method matches the whole path, returns the lexicographically most specific one with its bindings, and otherwise lists one method per route whose pattern matches |
| TreeNodes.Bind | web/route_tree.go:151-160 | appending to a slice extends what it shows, and writes the shared array only beyond the length of the slice it was given |
| TreeNodes.CaptureValues | web/route_tree.go:163-172 | the captures are the bindings as a map, a later binding of a name replacing an earlier |
| TreeNodes.Node.Link | web/route_tree.go:79-104 | a new child is put in the literal map or slot of its edge, and every other edge keeps its subtree |
| TreeNodes.Node.ChildFor | web/route_tree.go:79-104 | the child a segment leads to, made if missing, or none when the slot is taken under another name |
| TreeNodes.Node.Insert | web/route_tree.go:53-74 | in-place insertion turns the tree the nodes stand for into the value-level insertion, and into nothing else when it fails |
| TreeNodes.Node.Here | web/route_tree.go:140-149 | the handler of the method, or the methods served here in whatever order the map is ranged over |
| TreeNodes.Node.Resolve | web/route_tree.go:109-137 | over nodes, with bindings appended into a shared backing array, the walk returns what the value-level walk does: sibling branches that failed never corrupt the captures |
| Surfaces.NewRoutes | web/routes.go:39-68 | assembly succeeds or names the first faulty or ambiguous route, and the surface's tree holds exactly the routes |
| Surfaces.FineIffCompatible | web/routes.go:39-68 | fault-free routes assemble if and only if no two conflict: same method and shape, or one slot under two names |
| Surfaces.Handle | web/routes.go:201-224 | dispatch gives the winning route with its captures; 405 with the sorted multiset of methods, one per matching route (sections 15.5.6 and 10.2.1 of RFC 9110); or 404 if and only if no route matches the path |
| Surfaces.CompatibleAsCollection | web/routes.go:39-68 | whether routes assemble depends on the collection of routes and not on their order |
| Surfaces.AnswerUnique | web/routes.go:39-68 | two surfaces made of the same routes in any two orders answer every request alike |
| Surfaces.Rebuild | web/routes.go:116-132 | rebuilding a surface with other handlers never takes the error branch; the new surface holds the rewrapped routes and is itself fit to be rebuilt, so rebuilds chain |
| Surfaces.RebuiltAnswers | web/routes.go:182-195 | a rebuilt surface answers each request with the rewrapped handler of the route that won before, and with the same captures, 405s and 404s |
| Surfaces.RewrappedCompatible | web/naming.go:20-33 | rewrapping handlers keeps routes compatible |
| Filling.FillPattern | web/call.go:118-136 | the filling loop computes `Fill`, the missing capture included |
| Filling.FillAnswers | web/call.go:118-136 | filling is refused for a pattern of no segments and for the first capture that nothing was given for, by its name; otherwise it gives a slash and every segment in its place, a capture as what was given for it |
| Filling.MatchThenFill | web/call.go:118-136 | for a path that begins with a slash, filling a pattern with what it captured from the path gives the path back |
| Filling.HandledPathRefills | web/call.go:118-136 | so does filling the winning route's pattern with the captures dispatch handed over |
| Filling.FillThenMatch | web/call.go:118-136 | a pattern filled with slash-free captures (any wildcard value) is matched by that pattern with exactly those bindings |
| SingleFlight.InFlightReads.Join | web/upstream_inflight.go:83-94 | under the lock: join the reading under way, or become its leader |
| SingleFlight.InFlightReads.Forget | web/upstream_inflight.go:125-133 | the key, and no other, is forgotten |
| SingleFlight.StepKeepsInv | web/upstream_inflight.go:55-133 | every step of every caller and reading keeps the invariant on pending keys, callers, readings and store |
| SingleFlightRuns.OneReadingPerKey | web/upstream_inflight.go:55-133 | in every reachable state at most one claim or reading of a key is active, and it is the one callers join |
| SingleFlightRuns.ForgetRemovesOwn | web/upstream_inflight.go:111-133 | what a reading's forget removes is its own deferred |
| SingleFlightRuns.AnswerEnds | web/upstream_cache.go:58-79 | a reading ends with what its service answered: at once, or after a 2xx answer was offered to the store, kept or not; with the fault if the answer cannot be written down |
| SingleFlightRuns.JoinedReceives | web/upstream_inflight.go:55-68 | a caller that joined gets the outcome of the one reading it joined, and that reading was of its own key |
| SingleFlightRuns.JoinedHears | web/upstream_inflight.go:55-117 | over every run from the start, a caller that joined hears what the service answered the one reading it joined, unless that reading was cut short in the run, and then what it was cut short with |
| SingleFlightRuns.ReachableServes | web/upstream_inflight.go:77-133 | in every reachable state whatever a caller awaits is complete or exactly one of its leader and its reading is still to finish it, and each pending key has exactly one unfinished responsible party |
| SingleFlightRuns.CompletedOnce | web/upstream_inflight.go:111-117 | a deferred is completed at most once, by its own reading, after its key was forgotten, and never changes |
| SingleFlightRuns.RankNeverRises | web/upstream_inflight.go:103-121 | no step of anybody puts a reading back |
| SingleFlightRuns.WaiterCanFinish | web/upstream_inflight.go:96-121 | from any state a waiting caller can resume after at most five steps, each of them of the leader or the reading it waits for |
| SingleFlightRuns.AbandonedRun | web/upstream_inflight.go:40-54 | every run the others make with a set of callers present they make without them, to the same registry, deferreds, readings and store |
| SingleFlightRuns.LeaderArises | web/upstream_inflight.go:61-94 | a first caller does come to stand between its claim and its fork, for any key |
| SingleFlightRuns.InterruptionIff | web/upstream_inflight.go:61-67 | interrupting a caller in a reachable state leaves every waiter and every pending key served if and only if the caller is not a leader between its claim and its fork |
| SingleFlightRuns.AbandonedLeaderStrands | web/upstream_inflight.go:61-67 | a leader gone between its claim and its fork leaves its key stranded |
| SingleFlightRuns.StrandedForever | web/upstream_inflight.go:61-67 | a stranded key is stranded in every continuation |
| SingleFlightRuns.InterruptedLeaderStrandsAll | web/upstream_inflight.go:61-94 | after a leader is interrupted there, in every continuation whoever claims the key joins the reading nobody will make, and whoever joined it never resumes |
| SingleFlightRuns.StoreHoldsAnswers | web/upstream_cache.go:53-79 | whatever is kept under a key is a 2xx response some reading of that key got |
| SingleFlightRuns.LookupAfterReading | web/upstream_client.go:135-151 | over every run in which the store refused and dropped nothing, a lookup after a reading of its key ended with a 2xx answer hits |
| SingleFlightRuns.KeptIsReplayed | web/upstream_cache.go:44-79 | a 2xx answer that the store kept is what the next caller to look is answered with |
| SingleFlightRuns.AskedAgain | web/upstream_cache.go:44-51 | an entry dropped or a store that cannot be read sends the caller on to a reading |
| UpstreamAsk.AskUpstream | web/upstream_client.go:189-243 | at most Retries+1 attempts, one if there is no base delay; every attempt but the last ended in a status of 500 or more or in a fault that carries no lower one, and a stop before the allowance is spent is at one that did not; each fetch comes immediately after the turn granted to its own attempt, none without and none twice; the answer is the last attempt's own response, status, header and entity unchanged, or its fault |
| UpstreamAsk.Attempt | web/upstream_client.go:195-199 | one attempt ends at a turn refused, a fetch without a response or what the status says, and keeps the pacing of the trace |
| UpstreamAsk.WorthIffUnanswered | web/upstream_client.go:219-243 | what came of an attempt is worth another if and only if its status was 500 or more or its fault carries no refusal below that |
| UpstreamAsk.ResponseUnchanged | web/upstream_refusal.go:18-50 | carrying a response as a failure and handing it back changes nothing |
| UpstreamAsk.KeyStandsForOne | web/upstream_cache.go:28-34 | with colon-free names and methods and a space-free target, one key stands for one service, subject, method, path and query, the path being free of question marks; otherwise one path may go on with the other's query |
| UpstreamAsk.TargetsShareIff | web/upstream_cache.go:29-33 | two paths with their queries make one target if and only if they are the same or one's path has in it the question mark before the other's query |
| UpstreamAsk.RequestsShareIff | web/upstream_cache.go:28-34 | two requests of one service, by colon- and space-free methods, have one key if and only if they are the same or one's target ends in a colon and the other's method and target while the other is about all that comes before |
| UpstreamAsk.PathWithSpaceCollides | web/upstream_cache.go:28-34 | a path with a space that does collide, for any service |
| UpstreamAsk.NamesShareIff | web/upstream_cache.go:28-34 | some requests of two differently named services have one key if and only if one's name followed by a colon begins the other's |
| UpstreamAsk.LongerNameCollides | web/upstream_cache.go:28-34 | then every request of the longer-named service, whatever it is about, has the key of a request of the other with the same method and path |
| Broker091.RouteTargetsReach | amqp091/inprocess/operations.go:77-99 | the default exchange reaches the queue of the key; a direct exchange one queue per binding of its own by that key, a fanout one per binding, in the order they were bound; an exchange that is unknown or of another kind is refused |
| Broker091.ReachesUnique | amqp091/inprocess/operations.go:77-99 | there is only one such list of queues |
| Broker091.RoutedIff | amqp091/inprocess/operations.go:89-97 | a queue is reached through an exchange if and only if it has a binding to it, and by the message's own key when the exchange is direct |
| InProcess091.Broker.RouteTargets | amqp091/inprocess/operations.go:77-99 | the loop over bindings gives the queues the target reaches, unknown and unroutable exchanges included |
| InProcess091.Broker.QueuesFor | amqp091/inprocess/operations.go:43-71 | one tag and one copy per queue, in order |
| InProcess091.Broker.Publish | amqp091/inprocess/operations.go:17-33 | the placements are offered in turn until one finds its queue full |
| InProcess091.Broker.Offer | amqp091/inprocess/broker.go:41-48 | onto the end of the queue, or refused when it holds 1024 |
| InProcess091.Broker.Next | amqp091/inprocess/subscription.go:28-38 | the front delivery, filed as unsettled under its tag; or nothing, and nothing changed, when the consumer is cancelled or no message comes |
| InProcess091.Broker.Settle | amqp091/inprocess/subscription.go:84-98 | out of the unsettled map and onto the outcome list of the decision, or an unknown tag |
| InProcess091.Broker.Ack | amqp091/inprocess/subscription.go:41-45 | settled as acked |
| InProcess091.Broker.Discard | amqp091/inprocess/subscription.go:50-54 | settled as discarded |
| InProcess091.Broker.Requeue | amqp091/inprocess/subscription.go:62-74 | settled as requeued and offered again, marked as redelivered |
| InProcess091.Broker.DeclareQueue | amqp091/inprocess/operations.go:126-139 | a queue that is already there is left as it is |
| InProcess091.Broker.Bind | amqp091/inprocess/operations.go:142-153 | only an exchange and a queue that exist are bound |
| Broker091.DeclaredReceives | amqp091/inprocess/operations.go:17-139 | a declared queue is there, with what it had, and takes what is published to it by name at the end of its backlog unless it holds 1024; every other queue stays as it was |
| Broker091.BoundIsReached | amqp091/inprocess/operations.go:77-153 | binding fails for want of the exchange or else of the queue and then changes nothing; otherwise the messages it lets through reach its queue besides those they reached before, and other messages what they did |
| Broker091Runs.PublishPlaces | amqp091/inprocess/operations.go:43-99 | one copy of the message per queue its target reaches by the exchange's own kind, in order, each with the next tag; a publish fails if and only if the exchange is unknown or unroutable or the default exchange is given no queue's name, and then issues no tag |
| Broker091Runs.StepKeepsInv | amqp091/inprocess/subscription.go:28-98 | every step keeps conservation, genuineness and filing |
| Broker091Runs.TagAtOneSite | amqp091/inprocess/operations.go:17-71 | in every reachable state a tag was issued if and only if it is somewhere, and then it is at exactly one of: awaiting its offer, one queue's backlog, received and not recorded, one queue's unsettled map, awaiting its requeue, acked, discarded, dropped |
| Broker091Runs.SettledForGoodOnce | amqp091/inprocess/subscription.go:41-54 | over acks and discards together no tag comes twice |
| Broker091Runs.DeliveryIsOriginal | amqp091/inprocess/subscription.go:62-74 | wherever a delivery is, it is the copy first stamped under its tag, marked redelivered if and only if it was requeued |
| Broker091Runs.InHandCanGoOn | amqp091/inprocess/broker.go:102-108 | no goroutine in the middle of an operation finds its queue missing |
| Broker091Runs.PublishIsARun | amqp091/inprocess/operations.go:17-33 | a publish nobody disturbs leaves the broker as a run of the protocol's steps does |
| Broker091Runs.RequeueIsARun | amqp091/inprocess/subscription.go:62-74 | likewise a requeue |
| Broker091Runs.NextIsARun | amqp091/inprocess/subscription.go:28-38 | likewise a receipt |
| Broker091Runs.OneStepIsARun | amqp091/inprocess/operations.go:105-153 | likewise declaring, binding, acking and discarding |
| Broker091Runs.MessageGetsThrough | amqp091/inprocess/subscription.go:28-45 | from the start there is a run that declares a queue, publishes to it, receives and acks, and leaves nothing else behind |
| Broker10.TagNameInjective | amqp10/inprocess/links.go:64-71 | address, dash and decimal counter determine address and counter, whatever dashes the address has |
| Broker10.DecimalReads | amqp10/inprocess/links.go:64-71 | the counter in a tag is written in digits that stand for it, with no zero before them |
| Broker10.DeclaredReceives | amqp10/inprocess/broker.go:55-61 | a declared node is there, with what it had, and takes what is sent to it; one not declared refuses sends and receipts |
| Broker10.SentComesOutLast | amqp10/inprocess/links.go:50-128 | a receiver that takes until there is nothing gets all that were waiting in their order and then what was sent, with the message's own fields and no attempts; nothing changes at other nodes |
| Broker10.GivenBackComesOutLast | amqp10/inprocess/settlement.go:17-71 | what a disposition puts back is received again after all that were waiting: nothing on accept and reject, the message itself on release, and on modify the message with one attempt more unless it is undeliverable here |
| InProcess10.Broker.Declare | amqp10/inprocess/broker.go:55-61 | a node that is already there is left as it is |
| InProcess10.Broker.Enqueue | amqp10/inprocess/links.go:58-73 | the next tag, and the message at the end of the node's backlog |
| InProcess10.Broker.Pop | amqp10/inprocess/links.go:110-123 | the front of the node's backlog, nothing when it is empty, an error when there is no node |
| InProcess10.Broker.Decide | amqp10/inprocess/settlement.go:17-71 | each disposition's record and redelivery, as section 3.4 of Part 3 (Messaging) of OASIS AMQP 1.0 names them |
| InProcess10.Sender.Send | amqp10/inprocess/links.go:50-73 | refused on a detached link, otherwise enqueued |
| InProcess10.Receiver.Receive | amqp10/inprocess/links.go:99-128 | the front message recorded as unsettled, the end of the messages, or an error for an ended context or a missing node |
| InProcess10.Receiver.Settle | amqp10/inprocess/settlement.go:73-89 | deleted under the link's lock, then decided under the broker's; an unknown tag decides nothing |
| Broker10Runs.NotedCounts | amqp10/inprocess/settlement.go:17-55 | recording a disposition raises by one the settlements of the tag it names, and its attempts only for a modification that leaves it deliverable here |
| Broker10Runs.StepKeepsInv | amqp10/inprocess/links.go:50-128 | every step keeps conservation, genuineness, the records and the links' addresses |
| Broker10Runs.TagAtOneSite | amqp10/inprocess/links.go:50-128 | the tags of different sends differ, and in every reachable state each is at exactly one of: a node's backlog, a goroutine's hands, a link's unsettled map, awaiting its decision, accepted, rejected |
| Broker10Runs.MessageIsOriginal | amqp10/inprocess/settlement.go:31-71 | wherever a message is, it is one that was sent, at the node it was sent to; its attempts are the modifications that left it deliverable here, modulo 2^32, so that a release never moves them; and it has been settled as often as received, but for the receipt still out |
| Broker10Runs.SettledForGoodOnce | amqp10/inprocess/settlement.go:17-28 | over acceptances and rejections together no tag comes twice |
| Broker10Runs.NodesStay | amqp10/inprocess/settlement.go:65-71 | no operation in progress finds its link or node missing, so redelivery never takes the branch that loses a message |
| Broker10Order.StepInTurn | amqp10/inprocess/links.go:50-128 | every step keeps the messages that nobody has received, in each backlog, in the order they were sent |
| Broker10Order.FirstReceiptsInOrder | amqp10/inprocess/links.go:99-128 | under every interleaving, when a message is received for the first time every message sent before it to the same node has been received already |
| Broker10Runs.SendIsARun | amqp10/inprocess/links.go:50-73 | a send nobody disturbs leaves the broker as a run of the protocol's steps does |
| Broker10Runs.ReceiveIsARun | amqp10/inprocess/links.go:99-128 | likewise a receipt, link included |
| Broker10Runs.SettleIsARun | amqp10/inprocess/settlement.go:73-89 | likewise a settlement, link included |
| Broker10Runs.MessageGetsThrough | amqp10/inprocess/links.go:17-128 | from the start there is a run that declares a node, attaches a sender and a receiver, sends, receives and accepts, and leaves nothing else behind |
| Broker10Runs.DetachedForGood | amqp10/inprocess/links.go:26-98 | a link that was detached is detached in every continuation |
| Broker10Runs.BeginsIffAttached | amqp10/inprocess/links.go:50-105 | detaching closes that link alone, and a link begins a send or a receipt if and only if it is not detached |
| FieldConversions.Table | amqp091/field_values.go:34-47 | the loop fills the table, a later field replacing an earlier one of its name |
| FieldConversions.FieldOf | amqp10/property_values.go:71-97 | each kind as the protocol's value, nested objects as its own table type |
| FieldConversions.FieldsOf | amqp091/field_values.go:86-96 | a list element by element |
| FieldConversions.NameOrder | amqp091/field_values.go:173-180 | the names in order, whatever order the map is ranged over in |
| Strings.AtMostIff | amqp091/field_values.go:173-180 | the order names are sorted in is the dictionary's: a beginning comes first, and otherwise the first characters that differ decide |
| FieldConversions.Headers | amqp091/field_values.go:103-113 | the table read name by name, refused at the first entry that cannot be |
| FieldConversions.FieldValue | amqp10/property_values.go:128-171 | each kind the protocol's reader knows, and a refusal for the rest |
| FieldConversions.Elements | amqp10/property_values.go:173-183 | a list element by element, refused at the first that cannot be read |
| FieldValues.RoundTrip | amqp091/field_values.go:34-180 | reading back what was written gives the recursive normal form: sorted by name, the last of duplicate names, nested and empty objects and lists kept; for both protocols |
| FieldValues.NormalKeepsLast | amqp10/property_values.go:35-48 | the normal form has exactly one field per name, the normal form of the last so named |
| FieldValues.NormalIsNormal | amqp091/field_values.go:166-180 | normal forms are sorted and free of duplicates at every level |
| FieldValues.NormalFixed | amqp10/property_values.go:35-126 | values so sorted are left alone, so for them the round trip is the identity |
| FieldValues.ReadsIffSupported | amqp091/field_values.go:98-164 | reading succeeds if and only if no value inside is of a kind the protocol's reader does not know |
| FieldValues.HeadersDropNothing | amqp10/property_values.go:111-126 | a table that can be read loses no key: its names, each once and in order, with the values read from those entries |
| FieldValues.Forwarded | amqp091/field_values.go:166-180 | writing what was read gives what was received, at the widest widths |
| Codecs.FindDuplicate | web/codec.go:166-179 | the pass with its `seen` map finds the first parameter read before |
| Codecs.KeySeparates | web/codec.go:171-176 | the text keys of two parameters agree if and only if location and name do |
| Codecs.DuplicateIff | web/codec.go:164-179 | there is no fault if and only if no parameter is read twice |
| Codecs.DuplicateNames | web/codec.go:164-179 | the fault names the first parameter that was read before |
| Codecs.MakeStruct | web/codec_struct.go:36-57 | the loop over fields builds the codec that gathers parameters, entity and first fault, and reads field by field |
| CodecTrees.NestedValidIff | web/codec.go:99-162 | a nest of `Zip`s is usable if and only if its codecs are, at most one reads the body and, once anything is zipped, no parameter is read twice |
| CodecTrees.NestedReads | web/codec.go:99-120 | what it reads is its codecs' values in turn, or the first error |
| CodecTrees.StructValidIff | web/codec_struct.go:36-64 | a `Struct` is usable if and only if its codecs are, at most one reads the body and no parameter is read twice |
| CodecTrees.StructDeclaresAsZip | web/codec_struct.go:20-57 | `Struct` and any nest of `Zip`s over the same codecs declare the same parameters in order and the same entity; they are usable for the same lists if and only if it is not a lone codec that itself reads a parameter twice |
| CodecTrees.StructReadsAsZip | web/codec_struct.go:47-55 | on every request they give the same values, assigned in turn, or the same first error |
| CodecTrees.FaultIsFirst | web/codec.go:151-162 | when the codecs before it can be read side by side, the first codec at fault is what both a nest of `Zip`s and a `Struct` are refused for |
| CodecPaths.BuiltDistinct | web/codec_parameter.go:45-129 | no usable codec built from the parameter codecs, the body, `Zip`, `Convert`, `Struct` and descriptions reads a parameter twice |
| CodecPaths.ParameterReads | web/codec_parameter.go:21-139 | a parameter codec is usable if and only if its name is not blank and its schema is sound, and then reads the captured segment, the query value or the header, as its place says: the schema's value or its refusal, and when nothing was given, missing if required and nothing if optional |
| CodecPaths.UsableIff | web/codec.go:99-179 | a codec so built is usable if and only if its parts are, at most one part reads the body, no parameter is read twice and prose is put on one parameter only |
| CodecPaths.DecodesMeaning | web/codec.go:99-162 | and then what it decodes is what its declaration means: parameters and body read where they say, pairs and records in the order declared, conversions applied, the first error winning |
| CodecPaths.StructValidAsZip | web/codec_struct.go:20-57 | over codecs a program can make, `Struct` and any nest of `Zip`s are usable for the same lists |
| CodecPaths.CodecSafe | web/codec_parameter.go:76-129 | a codec so built lacks no path parameter on a request that binds the path names it declares |
| CodecPaths.ValidateCaptures | web/endpoint_validation.go:65-79 | no fault if and only if the path captures every path parameter; otherwise the first that it does not |
| CodecPaths.FirstEndpointFault | web/endpoint_validation.go:30-56 | the first thing wrong, in the order method, path, input, output, status, captures; fit if and only if there is none |
| CodecPaths.OneVerdict | web/endpoint_validation.go:30-56 | a declaration has one verdict only |
| CodecPaths.FineServes | web/endpoint_validation.go:30-56 | an endpoint found fit makes a route whose pattern is well formed and captures what its codec reads |
| CodecPaths.Declare | web/route.go:69-80 | endpoints as routes, each faulty if and only if its declaration is not fit or it has no handler |
| CodecPaths.Respond | web/routes.go:201-217 | from declaring endpoints to decoding a request: assembly fails if and only if there are none, one is not fit or two conflict; a request that is decoded is decoded by the winning endpoint's own codec with the captures of its match, what comes of it is what that codec's declaration means, and it never lacks a path parameter; any other request is answered 405 or 404 as dispatch is |
| CodecPaths.MatchBinds | web/route_tree.go:163-172 | a match binds exactly the names its pattern captures |
| CodecPaths.DispatchedHasItsPath | web/endpoint_validation.go:58-79 | a request dispatched to a valid endpoint with the captures of its match is never refused for want of a path parameter |
| RouteBodies.PhasedIsPlain | web/route.go:81-130 | for every request, handler, codec, naming and sampler, whether its parts succeed, fail, die or are interrupted, the phased body has the plain body's own events, exit and state |
| RouteBodies.BodyIsPlain | web/route.go:126-130 | whichever body a surface chose, its routes answer alike; a quiet one leaves no instrumentation |
| RouteBodies.BodyNotes | web/route.go:126-130 | the instrumentation a route leaves is that of the phases its naming and sampler open, none if there is neither |
| RouteBodies.BodyAnswers | web/route.go:69-132 | whichever body: a refused request is logged and rejected and never reaches the handler; a part that fails, dies or is interrupted ends the route so, logging included; a value that cannot be encoded is a defect; own events in order |
| RouteBodies.PhasedNotes | web/phase.go:85-127 | the instrumentation is decode's, then handle's if decoding accepted and the handler gave an effect, then encode's if that effect succeeded and the encoding ended of itself |
| RouteBodies.DecodePhaseEncloses | web/phase.go:85-127 | decoding is inside its phase, which is closed also when decoding dies or is interrupted |
| RouteBodies.HandlePhaseEncloses | web/route.go:99-100 | running the handler's effect is inside the handle phase, calling the handler before it |
| RouteBodies.PhasesTidyIff | web/phase.go:108-127 | each phase opened is closed once before another opens, if and only if the sampler gave an end for each phase that opened |
| RouteBodies.EndlessSamplerUntidy | web/phase.go:118-121 | a sampler that gives no end for the decode phase leaves it open on every request |
| RouteBodies.EncodePhaseIsEmpty | web/route.go:101-103 | all of the encoding comes before the opening of its phase, and encoding that dies has no phase |

## Left out

- The effect runtime (`Effect`, `Fiber`, `Deferred`, `Schedule`, `cache.Store`, `rate.Limiter`) is not part of this model; only sequencing, finalizers, a set-once deferred, a store that may fail and "at most n recurrences" are.
- A leader's interruption between its claim and its fork is excluded from the protocol's steps and shown to be fatal instead.
- Back-off durations, clocks, time to live and limiter pacing: they are parameters or absent; an entry that expires is a dropped one.
- HTTP serialisation of kept responses: assumed to round-trip. URL escaping and `net/http` are out.
- The 64-bit tag counters of both brokers are unbounded here; a wrap after 2^64 messages is not modelled.
- Body, headers and properties of a message are opaque texts in the broker models; the conversions of headers are modelled on their own.
- FieldConversions.Table: the unreachable default of the type switch is left out, since the sum of values is sealed; annotations, which the same loop makes, are not repeated.
- RouteBodies.PhasedIsPlain: a part may end by a defect or an interruption, but an interruption that falls exactly between two parts is not modelled; the sampler is taken not to change the program's state.
- CodecPaths.DispatchedHasItsPath: for requests whose captures no middleware has rewritten.
- CodecTrees.StructReadsAsZip: the component values have one type, standing for the union of the types a program would use, and the text of a fault may differ between the two.
- Error texts, `Refusal.Kind`, gRPC code mapping and status tables: finite or single-branch facts.
- OpenAPI projection, websockets, the gRPC transport, the real broker adapters, cross-origin headers, cookies, file serving and the server loop: thin layers over libraries and I/O, or easy members.
- Schema decoding: an abstract function from text to a value or nothing.
