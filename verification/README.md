# OpenAIMP in Dafny

A model of the parts of OpenAIMP whose correctness spans operations, threads or whole runs, and proofs
about it. Each Dafny file follows one component of the program.

The flight-simulation server (Go):

- `Fields.dfy`, `Packets.dfy`: the colon-delimited packets - the field accessor, packet types, acceptance,
  flight-plan sections and the packets rebuilt from them.
- `Routing.dfy`: box geometry, and what each packet handler decides to do with an accepted packet.
- `Login.dfy`: the login packets and the authentication that decides who may register.
- `PostOffice.dfy`, `Handlers.dfy`: the registry of clients (callsign map and geospatial tree) as a class,
  with search and broadcasts, and the handlers.
- `Effects.dfy`: what each packet does to the registered clients, told by its fields: who gets what, who moves,
  who is cancelled.
- `Dispatch.dfy`: one packet of a registered client, from verification to that effect, and what every packet
  keeps.
- `Connections.dfy`: the same registry as a transition system. Any number of connection goroutines log
  in, register, report positions, forward packets and leave; each step is one critical section or one
  atomic store.
- `SendFast.dfy`, `SendFastRuns.dfy`: the Send Fast flag over runs of position reports, and the same flag
  interleaved with the worker, other senders and cancellations.
- `Outbound.dfy`: one client's outbound channel, its worker, direct socket writes and senders, interleaved.
- `Framing.dfy`: the line scanner with its fixed buffer, into which the event loop appends in place.
- `Auth.dfy`: the authentication challenges.

The EuroScope plugin (C++):

- `Kmp.dfy`: Knuth-Morris-Pratt table and search, with a count of the fallbacks.

The backend (Java):

- `Stats.dfy`: flight and control records and the totals cached in user profiles.
- `Rbac.dfy`: roles, permissions, the relations between users, roles and permissions, and bootstrap.
- `Texts.dfy`, `SortedLists.dfy`: `String.trim`, and the stream operations `distinct`, `sorted` and `TreeSet`.

`Results.dfy` holds the option and result types.

Three patterns recur. A loop or an object that changes state is a method proved against a function of the
old state, and what the program promises is proved about that function. A protocol is a step function,
an invariant and a theorem over all runs. A service call is a transaction: a function to a new database or
an error, a method that performs the source's steps and rolls back, and lemmas over all sequences of calls.

What the proofs showed to be false as one might first state it:

- Re-appending CRLF to the scanner's slice overwrites the first byte of the next line when a line ends in
  a bare line feed (`Framing.BareLineFeedCorrupts`), and then, of everything the same read brought in, each
  remaining byte becomes an empty packet (`Framing.BareLineFeedDestroys`). One append is harmless exactly under
  the condition of `Framing.AppendIsHarmless`. A whole stream shorter than the buffer is delivered line by line
  for all sizes of the reads exactly when it is `Framing.Harmless`: then `Framing.Scanner.EventLoop` delivers
  its lines whatever the reads, and otherwise a single read of it does not (`Framing.OneReadExactly`). The
  documented line rule implies the condition.
- The Send Fast flag stops matching the last queued packet when a report changes it and the client is
  cancelled before the report or during its send: the channel may refuse the packet, and the error of the
  send is ignored (`SendFast.LostPacketRepeats`, `SendFastRuns.CancelledDuringSend`). It matches whatever the
  channel does exactly when the send of each report that changes it returns while the client is live
  (`SendFast.AgreesExactly`, and step by step `SendFastRuns.AgreesExactly` and
  `SendFastRuns.CanDisagreeExactly`).
- Extracting a flight plan from a built packet returns it only for colon-free addresses; the callsigns the
  server puts there are colon-free (`FlightPlans.FileRoundTrip`, `FlightPlans.AmendRoundTrip`).
- A rebuilt amendment keeps its target callsign exactly when the target field does not end in two line ends
  (`FlightPlans.RebuiltAmendmentKeepsTarget`); no packet the scanner delivers has such a field
  (`FlightPlans.FramedTargetIsKept`).
- The RBAC catalogue would throw on a row without its permission (`Rbac.GroupIsExact`), where the other queries
  skip it; `Rbac.IntegrityAlways` shows that no such row arises.

Bytes are written as the characters with the same codes, as in ISO/IEC 8859-1, the protocol's alphabet.
Coordinates and distances are real numbers; the longitude scale at each latitude, the distance function,
the number parsers and MD5 are parameters. `dafny verify dfyconfig.toml` checks the whole project.

## Model

| member | source | states |
|---|---|---|
| Kmp.BuildKmpTable | openfsd-patch-for-es-main/src/VATSIMAuthPatch.cpp:12-28 | for every pattern, entry i is the length of the longest proper border of pattern[0..i]; all fallback assignments of the whole build together number less than the pattern's length |
| Kmp.KmpSearch | openfsd-patch-for-es-main/src/VATSIMAuthPatch.cpp:30-49 | for every text and non-empty pattern, the result is the smallest index where the pattern occurs, and -1 exactly when it occurs nowhere; at most one fallback per text character in total |
| Kmp.MatchBelow | openfsd-patch-for-es-main/src/VATSIMAuthPatch.cpp:18-20 | below a match of length j the shorter matches are exactly the borders of the matched prefix, so the table lists all candidates |
| Kmp.MatchExtend | openfsd-patch-for-es-main/src/VATSIMAuthPatch.cpp:21-23 | one more character extends exactly the matches that continue with it |
| Kmp.FallBack | openfsd-patch-for-es-main/src/VATSIMAuthPatch.cpp:37-39 | replacing a rejected j by its table entry skips no candidate for the longest match |
| Kmp.Advance | openfsd-patch-for-es-main/src/VATSIMAuthPatch.cpp:40-42 | the comparison after the fallbacks leaves j at the longest match of the text read so far |
| Kmp.LongestBorderIsMatch | openfsd-patch-for-es-main/src/VATSIMAuthPatch.cpp:17-25 | the longest border of a prefix is the longest match of the pattern against itself shifted by one: building is searching |
| Kmp.OccurrenceIsMatch | openfsd-patch-for-es-main/src/VATSIMAuthPatch.cpp:43-45 | an occurrence ending at a position is a full-length match there, and back |
| Fields.IndexByte | openaimp-fsd/fsd/util.go:58-60 | first position of a byte with no earlier occurrence, or -1 exactly when it is absent |
| Fields.SplitIsExact | openaimp-fsd/fsd/util.go:54-56 | the colon split has as many pieces as countFields says, no piece holds a colon, and joining the pieces with colons gives the packet back |
| Fields.JoinSplits | openaimp-fsd/fsd/util.go:54-60 | splitting a join of colon-free pieces returns those pieces: with SplitIsExact, split and join are inverse |
| Fields.RebaseDropsField | openaimp-fsd/fsd/util.go:58-60 | rebasing drops exactly the first piece and is the identity on a packet with a single one |
| Fields.GetField | openaimp-fsd/fsd/util.go:62-74 | for every byte string and index the loop returns piece min(index, countFields-1) of the colon split, less one trailing CRLF |
| Fields.Rebase | openaimp-fsd/fsd/util.go:310-324 | the rebasing loop leaves exactly the packet from its k-th piece on, or its last piece |
| Fields.FieldHasNoColon | openaimp-fsd/fsd/util.go:62-74 | no field contains a colon |
| Packets.TypeMeansPrefix | openaimp-fsd/fsd/packet.go:41-139 | typing and the prefix table are inverse: a packet has a known type exactly when it starts with that type's prefix |
| Packets.CallsignRules | openaimp-fsd/fsd/util.go:112-151 | the valid callsigns by their byte codes: two to ten digits, capitals, hyphens and underscores, but not SERVER, CLIENT or FP |
| Acceptance.SourceMeansSender | openaimp-fsd/fsd/packet.go:182-193 | the extracted source is the sender's callsign exactly when the packet names the sender in the field its type prescribes, a stray prefix in a pilot position included |
| Acceptance.AcceptedExactly | openaimp-fsd/fsd/packet.go:140-221 | verifyPacket accepts a packet as a type if and only if it has 8 bytes, starts with the type's prefix, names its sender, and has the type's number of fields, given as numbers: 3, or 4, 7, 9, 13, 17 or 18 |
| Acceptance.RejectedExactly | openaimp-fsd/fsd/packet.go:196-221 | which error and text answers each rejected packet: too short, no known prefix, a sender not named, or too few fields |
| FlightPlans.ExtractFlightplanInfoSection | openaimp-fsd/fsd/util.go:310-324 | the loop returns everything after the type's two or three leading fields, less a trailing CRLF |
| FlightPlans.FileRoundTrip | openaimp-fsd/fsd/util.go:310-336 | extract after build returns the plan text if and only if the addresses contain no colon, whatever the plan text |
| FlightPlans.AmendRoundTrip | openaimp-fsd/fsd/util.go:310-361 | the same for amendments with their target callsign, if and only if |
| FlightPlans.SectionColons | openaimp-fsd/fsd/util.go:310-324 | a section has as many colons as the packet less those of its leading fields |
| FlightPlans.Terminated | openaimp-fsd/fsd/util.go:353-361 | cutting a trailing CRLF and writing one again keeps the number of fields and every field |
| FlightPlans.RebuiltFileIsAccepted | openaimp-fsd/fsd/handler.go:462-468 | for every accepted $FP packet the rebuilt broadcast is itself accepted for the same sender with the same type, field count and plan |
| FlightPlans.RebuiltFileKeepsFields | openaimp-fsd/fsd/util.go:327-336 | every plan field of the rebuilt $FP packet equals the sender's |
| FlightPlans.RebuiltAmendmentIsAccepted | openaimp-fsd/fsd/handler.go:470-487 | for every accepted $AM packet the rebuilt broadcast is itself accepted for the same sender with the same type, field count and plan |
| FlightPlans.RebuiltAmendmentKeepsFields | openaimp-fsd/fsd/util.go:339-351 | every plan field of the rebuilt amendment equals the sender's |
| FlightPlans.RebuiltAmendmentKeepsTarget | openaimp-fsd/fsd/handler.go:470-487 | the rebuilt amendment keeps the target callsign if and only if the packet's target field does not end in two line ends |
| FlightPlans.FramedTargetIsKept | openaimp-fsd/fsd/client.go:110-117 | no packet whose only line feed is its last byte, as the scanner delivers them, has such a target |
| FlightPlans.TargetCanBeCut | openaimp-fsd/fsd/handler.go:470-487 | concrete accepted packet, not deliverable by the scanner, whose target changes in the rebuilt packet |
| Geometry.MeetsMeansGaps | openaimp-fsd/fsd/postoffice.go:165-181 | two visibility boxes meet exactly when the centre gaps on both axes are at most the sums of the half-extents; the relation is symmetric |
| Routing.FieldAtIsExact | openaimp-fsd/fsd/handler.go:52-487 | every index a handler reads is below the packet's field count, so the saturating case of getField is never reached |
| Routing.PrivilegedExactly | openaimp-fsd/fsd/handler.go:206-335 | the handler decides to pass on a privileged request, query, handoff or amendment if and only if its sender is in command: a controller with a facility above the required one who names a recipient of two characters where one is needed; a recipient that is not connected still ends in an error reply |
| Packets.FacilityRatings | openaimp-fsd/fsd/util.go:153-176 | which ratings each facility type takes, in numbers; no other type is allowed |
| Routing.PrivilegedIsRated | openaimp-fsd/fsd/util.go:153-176 | with a facility allowed for the rating, a privileged packet passed on comes from a controller rated Student 1 or above |
| Routing.SupervisorActions | openaimp-fsd/fsd/handler.go:52-430 | kills and messages to everybody are carried out exactly for supervisors, each from one packet type |
| Routing.AddressedByFieldOne | openaimp-fsd/fsd/handler.go:199-460 | direct forwards and kills go to the callsign in field 1 and nobody else |
| Routing.TextAudience | openaimp-fsd/fsd/handler.go:52-96 | whatever the text: field 1 '@...' goes to everyone in range, '@49999' to the controllers in range and only from a controller, '*S' to all supervisors, '*' to everyone and only from a supervisor, 'FP' and 'SERVER' nowhere, anything else to that callsign; each if and only if |
| Routing.CallsignsAreAddressable | openaimp-fsd/fsd/util.go:112-151 | a text to any callsign a client may have goes to that callsign: none is taken for a frequency, a broadcast or the server |
| Routing.RequestAudience | openaimp-fsd/fsd/handler.go:206-257 | a controller's request goes to the controllers in range if and only if it is privileged, addressed to '@...' and comes from an open facility; to the callsign in field 1 if and only if it is an open one, or a privileged one to a callsign from an open facility; both errors and silence likewise |
| Routing.QueryAudience | openaimp-fsd/fsd/util.go:210-230 | a query to another client goes to the controllers in range for '@94835', to everyone in range for '@94836' and else to the callsign in field 1, if and only if it is known and its sender may ask it; the two errors and silence exactly in the other cases |
| Routing.ServerQueryAnswer | openaimp-fsd/fsd/handler.go:259-273 | which answer a query to the server gets, exactly |
| Routing.VelocityAudience | openaimp-fsd/fsd/handler.go:184-187 | the velocity clients in range get exactly the fast, slow and stopped positions; of the other packets none moves its sender |
| Routing.ReportIsTaken | openaimp-fsd/fsd/util.go:179-207 | a position report is taken exactly when its numbers parse and its facility is allowed, and then gives the latitude, longitude, range and facility of the fields 4 and 5, or 5, 6, 3 and 2 |
| Routing.ReportErrors | openaimp-fsd/fsd/handler.go:99-141 | which error each position report that is not taken is answered with, by its fields |
| Routing.OtherActions | openaimp-fsd/fsd/handler.go:184-487 | kills and forwards name the client of field 1, challenges field 2, weather requests field 3, amendments field 2 and the plan section, each exactly for the senders allowed to |
| Routing.FacilityIsAllowed | openaimp-fsd/fsd/handler.go:99-113 | whatever the packet, the facility type changes only to one allowed for the sender's rating |
| PostOffices.Client.Send | openaimp-fsd/fsd/client.go:96-103 | a live client's packet is always queued at the end; a cancelled one's may be refused, and nothing else changes |
| PostOffices.PostOffice.constructor | openaimp-fsd/fsd/postoffice.go:18-25 | the empty registry is valid |
| PostOffices.PostOffice.Register | openaimp-fsd/fsd/postoffice.go:31-48 | succeeds exactly when the callsign is free; map and tree gain this one client, or nothing changes, and they keep describing the same clients with their current boxes |
| PostOffices.PostOffice.Release | openaimp-fsd/fsd/postoffice.go:51-63 | removes this client from map and tree and nobody else; the indexes still agree |
| PostOffices.PostOffice.UpdatePosition | openaimp-fsd/fsd/postoffice.go:67-85 | the client's entry moves from its old box to the box of the new position and range, whether or not the boxes are equal; the indexes still agree |
| PostOffices.PostOffice.Find | openaimp-fsd/fsd/postoffice.go:134-144 | finds the registered client of that callsign exactly when there is one |
| PostOffices.PostOffice.Walk | openaimp-fsd/fsd/postoffice.go:90-113 | in whatever order the tree is walked, the callbacks made and the distance kept are those of the clients already passed |
| PostOffices.PostOffice.Search | openaimp-fsd/fsd/postoffice.go:90-113 | every other registered client whose box meets the searcher's is called back exactly once and nobody else, as in a scan of the map; the closest distance ends at the exact minimum over the revision-101 clients among them, or at the largest float |
| PostOffices.PostOffice.All | openaimp-fsd/fsd/postoffice.go:147-158 | calls back every registered client but the given one exactly once |
| PostOffices.PostOffice.Deliver | openaimp-fsd/fsd/util.go:233-297 | each selected live recipient's queue grows by exactly one copy; every other queue is unchanged |
| PostOffices.PostOffice.BroadcastRanged | openaimp-fsd/fsd/util.go:233-264 | exactly one copy reaches each selected live client in range and none the sender or anybody else |
| PostOffices.PostOffice.BroadcastAll | openaimp-fsd/fsd/util.go:267-297 | exactly one copy reaches each selected live client of the server and none the sender or anybody else |
| PostOffices.IndexesSwap | openaimp-fsd/fsd/postoffice.go:77-84 | deleting the old box and inserting the new one keeps one tree entry per client, the box of its position |
| Handlers.Server.RegisteredShows | openaimp-fsd/fsd/client.go:105-128 | in a sound registry the handlers may be called for every registered client |
| Handlers.Server.UpdateSendFast | openaimp-fsd/fsd/handler.go:167-180 | the flag follows the distance found, and a $SF packet with the new flag is queued exactly when it changed |
| Handlers.Server.Move | openaimp-fsd/fsd/handler.go:125-133 | the client stands at the given place, its tree entry agrees, everyone near there gets the packet once and nobody else anything, and the closest distance is measured there |
| Handlers.Server.HandlePilotPosition | openaimp-fsd/fsd/handler.go:137-181 | when fields 4 and 5 parse they are the pilot's latitude and longitude and its range is 50 nm, those near there get the packet once and Send Fast follows the closest distance there; otherwise only an error is queued, to the sender, and nothing else changes |
| Handlers.Server.HandleATCPosition | openaimp-fsd/fsd/handler.go:99-134 | the facility of field 2 is taken only if the rating allows it and even when the coordinates are bad; a forbidden one cancels the client after its error; when fields 5, 6 and 3 parse they are the client's latitude, longitude and, times 1852, range, and those near there get the packet; nothing else changes |
| Handlers.Server.HandleFileFlightplan | openaimp-fsd/fsd/handler.go:462-468 | the client's plan becomes the packet's plan section, every other live controller gets the rebuilt packet once, and nothing else changes |
| Handlers.Server.HandleAmendFlightplan | openaimp-fsd/fsd/handler.go:470-487 | from a controller with a facility the plan of the client in field 2 alone is replaced and each other live controller told once, or an error goes back for an unknown callsign; from anyone else nothing changes |
| Handlers.Server.SendError | openaimp-fsd/fsd/client.go:78-90 | one error packet enters the client's queue, unless it is cancelled and refuses it, and nothing else of any client changes |
| Handlers.Server.ForwardDirect | openaimp-fsd/fsd/util.go:302-307 | the packet enters the queue of the client of that callsign alone; without one, or when a cancelled one refuses it, error 7 enters the sender's |
| Handlers.Server.Perform | openaimp-fsd/fsd/handler.go:184-460 | each decision is carried out on the clients it names: a kill cancels the victim and changes nothing else, a deletion cancels its sender after one copy to every other live client, broadcasts reach their audience, answers the sender |
| Effects.ErrorPacketFields | openaimp-fsd/fsd/client.go:78-90 | a reader of an error packet finds the code, in decimal, in field 2 and the message in field 4 |
| Effects.AudiencesAre | openaimp-fsd/fsd/util.go:233-300 | the audiences select everyone, the controllers, those rated Supervisor or above, and those of revision 101 |
| Dispatch.AcceptedIsNotSendFast | openaimp-fsd/fsd/packet.go:41-94 | no packet a client can send is a $SF packet |
| Dispatch.HandlePacket | openaimp-fsd/fsd/client.go:110-128 | whatever bytes a registered client sends, the registry stays valid and the packet does what its fields say, type by type: who gets it, which reply or error the sender gets, who is moved, cancelled or amended, and that nothing else of any client changes; and the $SF packets of every live client go on alternating |
| Dispatch.DecidedIsHandled | openaimp-fsd/fsd/handler.go:12-45 | for every type, the decision carried out is the effect the packet's fields prescribe: kills cancel the client of field 1, direct forwards reach the client of field 1, broadcasts the named audience |
| Dispatch.HandledKeeps | openaimp-fsd/fsd/handler.go:167-180 | whatever a client sends, if the $SF packets of every live client alternate 1, 0, 1, ..., the last saying what its flag is, they still do |
| Dispatch.Admit | openaimp-fsd/fsd/postoffice.go:31-48 | a registration keeps the registry valid and every live client in step |
| Dispatch.Discharge | openaimp-fsd/fsd/postoffice.go:51-63 | so does a release |
| SendFast.AttemptsAlternate | openaimp-fsd/fsd/handler.go:167-180 | over any run of reports the $SF packets the server sends alternate 1, 0, 1, ..., and the flag is on exactly after an odd number of them |
| SendFast.FlagFitsDistance | openaimp-fsd/fsd/handler.go:167-180 | after each report of a revision-101 client an enabled flag means at most 5 nm and a disabled one at least 5 nm; any other revision is never enabled |
| SendFast.AgreesExactly | openaimp-fsd/fsd/client.go:96-103 | whatever the select of send chooses once the client is cancelled, the flag equals the last queued packet throughout a run, if and only if the send of every report that changes the flag returns before any cancellation; then the queued packets are all packets sent and alternate |
| SendFast.LostPacketRepeats | openaimp-fsd/fsd/util.go:406-420 | concrete run and choices: a client cancelled after its first report is told to enable twice in a row |
| SendFast.NeverOn | openaimp-fsd/fsd/handler.go:167 | a client of another revision never gets a $SF packet |
| SendFastRuns.AgreesExactly | openaimp-fsd/fsd/client.go:96-103 | over every interleaving of the client's goroutine, the worker, other senders and cancellations the flag agrees throughout with the last $SF packet in the channel or waiting for it, if and only if no send of a $SF packet ends in a context error; such an error occurs only for a cancelled client |
| SendFastRuns.LivePacketsAlternate | openaimp-fsd/fsd/handler.go:167-180 | in every reachable state with a live client the $SF packets that entered the channel, followed by the one that waits, alternate 1, 0, 1, ..., and the flag is on exactly when their number is odd |
| SendFastRuns.CanDisagreeExactly | openaimp-fsd/fsd/client.go:96-103 | as long as no $SF packet was lost, a next step that puts flag and packets at odds exists if and only if the client is cancelled and a $SF packet of its own still waits to enter the channel |
| SendFastRuns.CancelledDuringSend | openaimp-fsd/fsd/client.go:96-103 | concrete run: the report that enables Send Fast is handled while the client is live, the cancellation comes during its send, and the packet is lost with the flag left on |
| Connections.StepKeepsInv | openaimp-fsd/fsd/conn.go:31-87 | every step of every connection, at the granularity of locks and atomic stores, keeps the invariant over map, tree, connections and broadcasts |
| Connections.RunKeepsInv | openaimp-fsd/fsd/conn.go:31-87 | the invariant holds after every interleaved run of any number of connections |
| Connections.CallsignsAreUnique | openaimp-fsd/fsd/postoffice.go:31-63 | in every reachable state a callsign is held by at most one connection and the map leads to it |
| Connections.OneEntryEach | openaimp-fsd/fsd/postoffice.go:31-85 | from its tree insert to its tree delete a connection has exactly one entry and is in the map; outside an update the entry is the box of its position and range |
| Connections.PositionsFollowReports | openaimp-fsd/fsd/postoffice.go:67-85 | after every interleaved run each connection stands at, or is on its way to, exactly the place given by the fields of the last report it sent that was taken, the origin before the first, and has the facility type of its last such controller's report |
| Connections.ReportMoves | openaimp-fsd/fsd/postoffice.go:67-85 | the four steps of an accepted position report end with the connection serving at the reported point and range, the tree having lost the old box and gained the box of exactly that point and range, and nothing else changed |
| Connections.SearchFinds | openaimp-fsd/fsd/postoffice.go:90-113 | in every reachable state, updates in progress or not, search calls back for another client exactly when its entry meets the searcher's box, and each entry occurs once |
| Connections.SearchIsScan | openaimp-fsd/fsd/postoffice.go:90-113 | with no operation in progress search equals a brute-force scan of the callsign map |
| Connections.AnnouncementsAlternate | openaimp-fsd/fsd/conn.go:82-84 | over all interleaved runs, reconnects included, the add and disconnect broadcasts of a callsign strictly alternate starting with add, each disconnect by the connection added last |
| Connections.AnnouncedWhileHeld | openaimp-fsd/fsd/conn.go:75-86 | each of these broadcasts happens while its connection holds the callsign |
| Connections.RegisteredAreEntitled | openaimp-fsd/fsd/conn.go:50-75 | every registered client has a valid unreserved callsign, revision 100 or 101, Observer <= rating <= its maximum and a facility allowed for its rating |
| Connections.PrivilegedAreRated | openaimp-fsd/fsd/handler.go:205-473 | every privileged packet ever passed on was verified and came from a controller rated Student 1 or above |
| Connections.PrivilegedIsPassed | openaimp-fsd/fsd/handler.go:205-473 | a privileged packet is passed on and logged if and only if its sender is in command, and changes nothing else |
| Connections.NothingLeaks | openaimp-fsd/fsd/postoffice.go:51-63 | when no connection holds a callsign any more, map and tree are empty and every callsign's last broadcast was a disconnect |
| Connections.ReleaseUndoesRegister | openaimp-fsd/fsd/conn.go:68-80 | from any state, the five steps of a registration whose welcome message fails, taken with the other connections standing still, leave map, tree and broadcasts as they were |
| Connections.SessionBegins | openaimp-fsd/fsd/conn.go:41-84 | from any state an allowed login under a free callsign can be carried through to serving: the map leads to the connection, the tree has its box, and the one new broadcast is its announcement, with itself in the map |
| Connections.SessionEnds | openaimp-fsd/fsd/conn.go:75-86 | from any state a serving connection can leave: one disconnect broadcast with itself in the map, then its tree entry and its callsign go and nothing else |
| Connections.RefusedLeavesNothing | openaimp-fsd/fsd/conn.go:50-75 | a login that is not allowed, or under a taken callsign, closes the connection and changes nothing else |
| Login.PrefixIsInFirstField | openaimp-fsd/fsd/conn.go:188-194 | a packet that begins with its prefix has it in its first field, so the missing-callsign error never occurs |
| Login.ReadIdent | openaimp-fsd/fsd/conn.go:138-152 | an identification packet yields a challenge and a client id exactly when it has nine fields with a hexadecimal id, and fails only on a bad id |
| Login.ReadAdd | openaimp-fsd/fsd/conn.go:154-242 | succeeds exactly for an add packet of its type's prefix and field count with three numbers and revision 100 or 101; a bad revision in an otherwise good packet is the only error that is not a syntax error |
| Login.ReadLoginPackets | openaimp-fsd/fsd/conn.go:121-247 | succeeds exactly for two lines that form a login, told by their field numbers for controllers and pilots, and returns the one client and token they describe |
| Login.DescribesOne | openaimp-fsd/fsd/conn.go:188-236 | two login packets describe at most one client and token |
| Login.AtcLoginRoundTrip | openaimp-fsd/fsd/conn.go:195-214 | a controller's login line written from callsign, addressee, real name, number, token, rating and revision is read back as these |
| Login.PilotLoginRoundTrip | openaimp-fsd/fsd/conn.go:215-236 | a pilot's, written from callsign, addressee, number, token, rating, revision, simulator and real name, likewise |
| Login.AttemptAuthentication | openaimp-fsd/fsd/conn.go:249-338 | succeeds exactly for credentials of this client entitling it to at least the requested rating and software with a known key; then the challenge state follows the recurrence from its opening challenge; a refusal carries the error code of its reason |
| Login.LogIn | openaimp-fsd/fsd/conn.go:41-66 | goes on to the registration exactly for an admissible client, and that client satisfies the transition system's login condition: valid callsign, revision 100 or 101, Observer <= rating <= maximum |
| Outbound.StepKeepsInv | openaimp-fsd/fsd/client.go:58-103 | every step of the connection, the worker and any number of senders keeps the account of socket, channel and calls |
| Outbound.WrittenInOrder | openaimp-fsd/fsd/client.go:58-72 | in every reachable state the socket holds a prefix of the direct writes followed by the channel's packets in the order they entered, byte for byte, all direct writes first; the channel holds at most 32 |
| Outbound.OnlyQueueIsMissing | openaimp-fsd/fsd/client.go:58-72 | while the worker waits, exactly the packets in the channel are missing from the socket |
| Outbound.SendersKeepOrder | openaimp-fsd/fsd/client.go:96-103 | until the context is cancelled each sender's packets enter in order, none lost or doubled; afterwards every call has entered, failed or is pending |
| Outbound.SocketOnlyGrows | openaimp-fsd/fsd/conn.go:39-86 | after the worker started there are no direct writes, written bytes stay, and a closed connection takes nothing more, whatever happens |
| Outbound.WorkerDrains | openaimp-fsd/fsd/client.go:62-71 | a waiting worker left alone brings everything in the channel to an open socket, in order |
| Outbound.SendGetsThrough | openaimp-fsd/fsd/client.go:58-103 | however full the channel, while the worker waits on an open socket there is a run in which a waiting send enters and its packet is written behind all that was queued |
| Outbound.ServedFromTheStart | openaimp-fsd/fsd/conn.go:39-86 | from the initial state a run leads through the greeting to a served, live client with a packet sent to it written behind the greeting |
| Outbound.SendBlocksExactly | openaimp-fsd/fsd/client.go:96-103 | a send blocks exactly while the channel holds 32 packets and the client is not cancelled, and fails only after a cancellation |
| Framing.AppendIsHarmless | openaimp-fsd/fsd/client.go:115-117 | re-appending CRLF in place leaves the unread bytes unchanged if and only if the line ended in CRLF, or nothing is unread, or the next byte is itself a line feed |
| Framing.OneReadExactly | openaimp-fsd/fsd/client.go:105-129 | a stream that one read brings into the buffer yields exactly its lines if and only if each line feed follows a carriage return, or is the last byte, or is followed by a line feed or by a carriage return that is the last byte |
| Framing.BareLineFeedDestroys | openaimp-fsd/fsd/client.go:115-117 | when the first line of such a stream ends in a bare line feed, every byte behind it becomes an empty packet, whatever it was |
| Framing.BareLineFeedCorrupts | openaimp-fsd/fsd/client.go:115-117 | concrete buffer: a line ended by a bare line feed has the next line's first byte overwritten |
| Framing.PacketsConcatenate | openaimp-fsd/docs/about.md:17 | the packets of a stream whose line feeds all follow a carriage return concatenate back to the stream, with the missing end of an unterminated last line |
| Framing.Scanner.Scan | openaimp-fsd/fsd/client.go:111-113 | whatever the sizes of the reads: true if and only if there is a next line and it fits the buffer; the token is then that line, the last one at the end of the stream, and the rest stays unread |
| Framing.Scanner.Fill | openaimp-fsd/fsd/conn.go:46-48 | a read moves pending bytes into the buffer without changing the unread stream |
| Framing.Scanner.Shift | openaimp-fsd/fsd/conn.go:46-48 | moving the unread bytes to the front does not change the unread stream |
| Framing.Scanner.AppendDelimiter | openaimp-fsd/fsd/client.go:117 | the packet is the token and CRLF; the buffer changes only in the two bytes behind the token, or not at all when there is no room |
| Framing.AppendIsNext | openaimp-fsd/fsd/client.go:115-117 | completing a token leaves unread bytes that yield the other fitting lines of a harmless stream, whatever is still to be read, and when nothing is, the other packets of a single read |
| Framing.Scanner.NextPacket | openaimp-fsd/fsd/client.go:110-117 | on any stream, one round consumes the next line if it fits and ends the loop otherwise; on a harmless stream it delivers that line and leaves the others to be delivered |
| Framing.FittingPacketsAreFirst | openaimp-fsd/fsd/conn.go:46-48 | the packets up to the first line that does not fit are a prefix of the stream's packets, and all of them if and only if every line fits |
| Framing.Scanner.EventLoop | openaimp-fsd/fsd/client.go:105-129 | on a stream in which every line feed is harmless the packets delivered are the lines up to the first that does not fit the buffer, whatever the sizes of the reads; when all fit and each line feed follows a carriage return they concatenate back to the stream; for any stream that one read brings into the buffer they are its lines if and only if it is harmless |
| Auth.HexIsInjective | openaimp-fsd/fsd/vatsimauth.go:28-36 | hex encoding loses nothing |
| Auth.HexIsExact | openaimp-fsd/fsd/vatsimauth.go:28-36 | each byte is given by the two lower-case digits in its place, the higher first |
| Auth.DigestInputIsInjective | openaimp-fsd/fsd/vatsimauth.go:74-103 | for a fixed client id the shuffled digest input determines the 32-byte key and the challenge, for all challenge lengths |
| Auth.DigestInputIsRotation | openaimp-fsd/fsd/vatsimauth.go:74-103 | the digest input is the key rotated by 0, 12 or 22 bytes, by the client id modulo 3, with the halves of the challenge inserted at two fixed places, the second half first for an odd id |
| Auth.AnswerDetermines | openaimp-fsd/fsd/vatsimauth.go:58-72 | equal n-th answers of two clients of one kind mean equal keys, openings and challenges, or two of the strings they hashed collide under MD5 |
| Auth.CurrentDetermines | openaimp-fsd/fsd/vatsimauth.go:65-72 | the same for the current state |
| Auth.VatsimAuthState.RunObfuscationRound | openaimp-fsd/fsd/vatsimauth.go:74-107 | the successive appends hash exactly the specified shuffle |
| Auth.VatsimAuthState.Initialize | openaimp-fsd/fsd/vatsimauth.go:38-52 | a known client id starts the recurrence at the digest of key and opening; an unknown one is refused with the state unchanged |
| Auth.VatsimAuthState.GetResponseForChallenge | openaimp-fsd/fsd/vatsimauth.go:58-63 | the response is the recurrence's next answer and changes nothing |
| Auth.VatsimAuthState.Challenge | openaimp-fsd/fsd/handler.go:438-440 | the object stays on the pure recurrence from the never-changing initial state over any run of challenges |
| Auth.HandleAuthChallenge | openaimp-fsd/fsd/handler.go:432-450 | the reply carries the recurrence's answer to field 2; when the client logged in without a challenge it is an error and no field of the state changes |
| Texts.TrimIsExact | openaimp-backend/src/main/java/cn/ariven/openaimpbackend/service/impl/FlightRecordServiceImpl.java:184-196 | trimming takes the blanks off both ends and nothing else; it is empty exactly for an all-blank text |
| SortedLists.AscendingIsUnique | openaimp-backend/src/main/java/cn/ariven/openaimpbackend/service/impl/RbacServiceImpl.java:238-245 | a set of strings has only one strictly ascending list |
| SortedLists.SortedDistinctIsTree | openaimp-backend/src/main/java/cn/ariven/openaimpbackend/service/impl/RbacServiceImpl.java:302-308 | distinct().sorted() and a TreeSet produce the same ascending list, with the elements of the input |
| Stats.DurationIsAccepted | openaimp-backend/src/main/java/cn/ariven/openaimpbackend/service/impl/FlightRecordServiceImpl.java:158-174 | accepted exactly for at least one full minute and a stated duration, if any, of at least one; the stated one wins, otherwise the whole minutes between the times |
| Stats.FlightIsAccepted | openaimp-backend/src/main/java/cn/ariven/openaimpbackend/service/impl/FlightRecordServiceImpl.java:176-196 | exactly which flight requests pass: times a minute apart, a callsign of 1 to 32 characters, short enough texts |
| Stats.ControlIsAccepted | openaimp-backend/src/main/java/cn/ariven/openaimpbackend/service/impl/ControlRecordServiceImpl.java:153-205 | exactly which control requests pass, the facility type between 0 and 6 included |
| Stats.CheckedFlightIsStorable | openaimp-backend/src/main/java/cn/ariven/openaimpbackend/service/impl/FlightRecordServiceImpl.java:55-68 | what passes the checks is trimmed, within the column lengths and at least a minute long |
| Stats.CheckedControlIsStorable | openaimp-backend/src/main/java/cn/ariven/openaimpbackend/service/impl/ControlRecordServiceImpl.java:55-68 | the same for control records |
| Stats.CountIsCardinality | openaimp-backend/src/main/java/cn/ariven/openaimpbackend/mapper/FlightRecordMapper.java:14 | the count is the number of the user's rows |
| Stats.InsertMoves | openaimp-backend/src/main/java/cn/ariven/openaimpbackend/service/impl/FlightRecordServiceImpl.java:55-68 | a new row moves its owner's totals by its own part and nobody else's |
| Stats.ReplaceMoves | openaimp-backend/src/main/java/cn/ariven/openaimpbackend/service/impl/FlightRecordServiceImpl.java:95 | a changed row moves its owner's totals by the difference and nobody else's |
| Stats.RemoveMoves | openaimp-backend/src/main/java/cn/ariven/openaimpbackend/service/impl/FlightRecordServiceImpl.java:105 | a deleted row moves its owner's totals down by its part and nobody else's |
| Stats.AfterKeepsConsistent | openaimp-backend/src/main/java/cn/ariven/openaimpbackend/service/impl/UserProfileStatsServiceImpl.java:80-92 | every call, committed or rolled back, keeps each profile's two counts and two duration totals equal to the count and sum over that user's records |
| Stats.RunKeepsConsistent | openaimp-backend/src/main/java/cn/ariven/openaimpbackend/service/impl/UserProfileStatsServiceImpl.java:80-92 | the same after any sequence of calls by any users |
| Stats.RunKeepsCounts | openaimp-backend/src/main/java/cn/ariven/openaimpbackend/service/impl/UserProfileStatsServiceImpl.java:82-92 | no sequence of calls, committed or rolled back, takes any user's number of records out of the range of an int |
| Stats.DurationsCoverCounts | openaimp-backend/src/main/java/cn/ariven/openaimpbackend/service/impl/FlightRecordServiceImpl.java:158-174 | each cached duration is at least its count, both non-negative |
| Stats.ProfilesMoveExactly | openaimp-backend/src/main/java/cn/ariven/openaimpbackend/service/impl/UserProfileStatsServiceImpl.java:80-92 | a committed create, update or delete moves its owner's cached totals by exactly the record's part and leaves all other profiles' totals alone |
| Stats.DeleteUndoesCreate | openaimp-backend/src/main/java/cn/ariven/openaimpbackend/service/impl/FlightRecordServiceImpl.java:102-107 | deleting the record just created restores all rows and all cached totals; only its id is used up |
| Stats.CreateCommitsExactly | openaimp-backend/src/main/java/cn/ariven/openaimpbackend/service/impl/FlightRecordServiceImpl.java:41-72 | creating commits if and only if the request is accepted, the account exists and both counts stay within an int |
| Stats.FlightCallsStore | openaimp-backend/src/main/java/cn/ariven/openaimpbackend/service/impl/FlightRecordServiceImpl.java:41-107 | a committed creation adds one row under the next id, an update replaces one row of the same owner, a deletion drops one; the row has the request's own callsign, departure, arrival, times, minutes and remarks, texts less the blanks around them; every other row stays |
| Stats.ControlCallsStore | openaimp-backend/src/main/java/cn/ariven/openaimpbackend/service/impl/ControlRecordServiceImpl.java:41-108 | the same for control records, with position, airport and facility type |
| Stats.FlightCallsCommit | openaimp-backend/src/main/java/cn/ariven/openaimpbackend/service/impl/FlightRecordServiceImpl.java:41-107 | in every such state: creating commits if and only if the request is accepted, the account exists and its count can grow; updating if and only if the request is accepted and the record exists; deleting if and only if the record exists |
| Stats.ControlCallsCommit | openaimp-backend/src/main/java/cn/ariven/openaimpbackend/service/impl/ControlRecordServiceImpl.java:41-108 | the same three conditions for control records |
| Stats.StartupEstablishes | openaimp-backend/src/main/java/cn/ariven/openaimpbackend/config/SystemBootstrapRunner.java:62-112 | startup makes any stale or missing cached totals exact, without assuming anything about them |
| Stats.StartupFits | openaimp-backend/src/main/java/cn/ariven/openaimpbackend/config/SystemBootstrapRunner.java:62-112 | a startup that commits leaves every user's counts within an int |
| Stats.Services.EnsureUserProfile | openaimp-backend/src/main/java/cn/ariven/openaimpbackend/service/impl/UserProfileStatsServiceImpl.java:25-78 | creates a zero profile or fills the null totals; fails exactly for a non-positive or unknown user, changing nothing |
| Stats.Services.RefreshStats | openaimp-backend/src/main/java/cn/ariven/openaimpbackend/service/impl/UserProfileStatsServiceImpl.java:82-92 | replaces the user's totals by the aggregates and touches no other profile, or reports why not |
| Stats.Services.CreateFlightRecord | openaimp-backend/src/main/java/cn/ariven/openaimpbackend/service/impl/FlightRecordServiceImpl.java:41-72 | the step-by-step service commits exactly the specified transaction or restores everything, and returns the stored row, whose columns are the request's own |
| Stats.Services.UpdateFlightRecord | openaimp-backend/src/main/java/cn/ariven/openaimpbackend/service/impl/FlightRecordServiceImpl.java:76-98 | the same for changing a flight record, the owner kept |
| Stats.Services.DeleteFlightRecord | openaimp-backend/src/main/java/cn/ariven/openaimpbackend/service/impl/FlightRecordServiceImpl.java:102-107 | the same for deleting a flight record |
| Stats.Services.CreateControlRecord | openaimp-backend/src/main/java/cn/ariven/openaimpbackend/service/impl/ControlRecordServiceImpl.java:41-72 | the same for creating a control record |
| Stats.Services.UpdateControlRecord | openaimp-backend/src/main/java/cn/ariven/openaimpbackend/service/impl/ControlRecordServiceImpl.java:76-99 | the same for changing a control record, the owner kept |
| Stats.Services.DeleteControlRecord | openaimp-backend/src/main/java/cn/ariven/openaimpbackend/service/impl/ControlRecordServiceImpl.java:103-108 | the same for deleting a control record |
| Stats.Services.RefreshAll | openaimp-backend/src/main/java/cn/ariven/openaimpbackend/config/SystemBootstrapRunner.java:62-112 | the loop over all accounts commits the whole startup or nothing |
| Rbac.UserRolesAreExact | openaimp-backend/src/main/java/cn/ariven/openaimpbackend/service/impl/RbacServiceImpl.java:226-246 | a user's role list is strictly ascending and holds exactly the codes of its roles |
| Rbac.UserPermissionsAreUnion | openaimp-backend/src/main/java/cn/ariven/openaimpbackend/service/impl/RbacServiceImpl.java:249-279 | a user's permission list is the strictly ascending, duplicate-free union of the lists of its roles |
| Rbac.RolePermissionsAreExact | openaimp-backend/src/main/java/cn/ariven/openaimpbackend/service/impl/RbacServiceImpl.java:311-320 | a role's list is strictly ascending and holds exactly the permissions it grants |
| Rbac.GroupIsExact | openaimp-backend/src/main/java/cn/ariven/openaimpbackend/service/impl/RbacServiceImpl.java:295-309 | the single pass over all rows throws if and only if some row refers to a missing permission (a null added to a TreeSet); otherwise each role's entry is the TreeSet of its own rows' codes, however the rows interleave |
| Rbac.GroupedAgree | openaimp-backend/src/main/java/cn/ariven/openaimpbackend/service/impl/RbacServiceImpl.java:295-320 | what that pass collects for a role equals the per-role query's distinct, sorted list |
| Rbac.CatalogAgrees | openaimp-backend/src/main/java/cn/ariven/openaimpbackend/service/impl/RbacServiceImpl.java:199-223 | the catalogue fails exactly when a row dangles; otherwise it lists every role in id order with the per-role query's permissions |
| Rbac.AssignRolesExactly | openaimp-backend/src/main/java/cn/ariven/openaimpbackend/service/impl/RbacServiceImpl.java:54-77 | the user's roles become exactly the requested codes, trimmed, blanks and nulls dropped; nobody else's roles or permissions change |
| Rbac.AssignRolesCommits | openaimp-backend/src/main/java/cn/ariven/openaimpbackend/service/impl/RbacServiceImpl.java:54-77 | commits if and only if the user exists, some requested code is not blank, and each that is not names a role |
| Rbac.AssignPermissionsExactly | openaimp-backend/src/main/java/cn/ariven/openaimpbackend/service/impl/RbacServiceImpl.java:96-121 | the role's permissions become exactly the request; no other role's change |
| Rbac.AssignPermissionsCommits | openaimp-backend/src/main/java/cn/ariven/openaimpbackend/service/impl/RbacServiceImpl.java:96-121 | commits if and only if the role code names a role, some requested code is not blank, and each that is not names a permission |
| Rbac.RevokeRoleExactly | openaimp-backend/src/main/java/cn/ariven/openaimpbackend/service/impl/RbacServiceImpl.java:81-92 | takes exactly that role from exactly that user |
| Rbac.RevokeRoleCommits | openaimp-backend/src/main/java/cn/ariven/openaimpbackend/service/impl/RbacServiceImpl.java:81-92 | commits if and only if the user exists and holds the role the code names |
| Rbac.RevokePermissionExactly | openaimp-backend/src/main/java/cn/ariven/openaimpbackend/service/impl/RbacServiceImpl.java:125-134 | takes exactly that permission from exactly that role |
| Rbac.RevokePermissionCommits | openaimp-backend/src/main/java/cn/ariven/openaimpbackend/service/impl/RbacServiceImpl.java:125-134 | commits if and only if the role named holds the permission named |
| Rbac.DeleteUndoesCreate | openaimp-backend/src/main/java/cn/ariven/openaimpbackend/service/impl/RbacServiceImpl.java:138-165 | deleting a role just created restores the tables; only its id is used up |
| Rbac.AfterKeeps | openaimp-backend/src/main/java/cn/ariven/openaimpbackend/service/impl/RbacServiceImpl.java:54-196 | every call, committed or rolled back, and every restart keeps unique codes and pairs, no row referring to anything missing, and every built-in entry unchanged |
| Rbac.IntegrityAlways | openaimp-backend/src/main/java/cn/ariven/openaimpbackend/config/RbacBootstrapRunner.java:34-99 | after bootstrap and any sequence of calls and restarts: no dangling row, unique pairs and codes, all built-in roles and permissions present under the ids they had, and a catalogue that succeeds and agrees with every per-role query |
| Rbac.BootstrapIsIdempotent | openaimp-backend/src/main/java/cn/ariven/openaimpbackend/config/RbacBootstrapRunner.java:34-99 | running the bootstrap on its own result changes nothing |
| Rbac.BootstrapKeeps | openaimp-backend/src/main/java/cn/ariven/openaimpbackend/config/RbacBootstrapRunner.java:34-99 | from any sound tables, empty ones included, bootstrap keeps them sound, equips them with the built-ins, gives every account the user role, and has a super administrator as soon as there is an account |
| Rbac.BootstrapRolesExactly | openaimp-backend/src/main/java/cn/ariven/openaimpbackend/config/RbacBootstrapRunner.java:33-88 | after bootstrap an account holds a role code if and only if it held it before, or it is 'user', or it is 'super-admin', nobody held that and the account is the first |
| Rbac.BootstrapGrantsExactly | openaimp-backend/src/main/java/cn/ariven/openaimpbackend/config/RbacBootstrapRunner.java:33-88 | after bootstrap a role grants a permission code if and only if it granted it before, or it is 'user' and 'system:profile:read', or 'super-admin' and one of the eleven management codes |
| Rbac.NothingToBootstrap | openaimp-backend/src/main/java/cn/ariven/openaimpbackend/config/RbacBootstrapRunner.java:34-99 | tables that have the built-ins and their rows are left alone |
| Rbac.Reassign | openaimp-backend/src/main/java/cn/ariven/openaimpbackend/service/impl/RbacServiceImpl.java:63-75 | the key's rows become exactly the target ids; rows of other keys and uniqueness stay |
| Rbac.Services.AssignRolesToUser | openaimp-backend/src/main/java/cn/ariven/openaimpbackend/service/impl/RbacServiceImpl.java:54-77 | the step-by-step service commits exactly the specified assignment or nothing and returns the user's authorization after it |
| Rbac.Services.RevokeRoleFromUser | openaimp-backend/src/main/java/cn/ariven/openaimpbackend/service/impl/RbacServiceImpl.java:81-92 | the same for revoking a role |
| Rbac.Services.AssignPermissionsToRole | openaimp-backend/src/main/java/cn/ariven/openaimpbackend/service/impl/RbacServiceImpl.java:96-121 | the same for permissions; it returns the view of the role with the requested code, with its permissions as they are now |
| Rbac.Services.RevokePermissionFromRole | openaimp-backend/src/main/java/cn/ariven/openaimpbackend/service/impl/RbacServiceImpl.java:125-134 | the same for revoking a permission, with the same view returned |
| Rbac.CreateRoleExactly | openaimp-backend/src/main/java/cn/ariven/openaimpbackend/service/impl/RbacServiceImpl.java:138-153 | creating a role commits if and only if code and name are not blank and no role has the trimmed code; then exactly one custom role, without permissions, is added under a fresh id and nobody's rights change |
| Rbac.CreatePermissionExactly | openaimp-backend/src/main/java/cn/ariven/openaimpbackend/service/impl/RbacServiceImpl.java:169-185 | the same for a permission, which no role has yet |
| Rbac.DeleteRoleExactly | openaimp-backend/src/main/java/cn/ariven/openaimpbackend/service/impl/RbacServiceImpl.java:157-165 | deleting commits if and only if the code names a custom role that no user has; then exactly that role and its permission rows go and nobody's rights change |
| Rbac.DeletePermissionExactly | openaimp-backend/src/main/java/cn/ariven/openaimpbackend/service/impl/RbacServiceImpl.java:189-196 | deleting commits if and only if the code names a custom permission that no role has; then exactly that entry goes and no role's or user's rights change |
| Rbac.SignUpExactly | openaimp-backend/src/main/java/cn/ariven/openaimpbackend/service/impl/RbacServiceImpl.java:28-36 | succeeds exactly for a new account while both built-in roles exist; the account's roles are then exactly user, and super-admin too exactly when it is the server's first account; nobody else's rights change |
| Rbac.Services.RunBootstrap | openaimp-backend/src/main/java/cn/ariven/openaimpbackend/config/RbacBootstrapRunner.java:34-99 | the sequence of ensure steps and loops computes the specified bootstrap, with the ids captured on the way still valid at the end |
| Rbac.Services.EnsureRole | openaimp-backend/src/main/java/cn/ariven/openaimpbackend/config/RbacBootstrapRunner.java:101-121 | the role exists and is built in afterwards; existing built-in entries and uniqueness are kept |
| Rbac.Services.EnsurePermission | openaimp-backend/src/main/java/cn/ariven/openaimpbackend/config/RbacBootstrapRunner.java:123-144 | the same for a permission |

## Left out

- Floating-point rounding, NaN and infinite coordinates, the accuracy of the trigonometry, the poles and the antimeridian: box arithmetic is exact and nothing geodesic is claimed.
- The R-tree's inner structure: a multiset of (box, client) entries with insert, delete and inclusive intersection.
- Liveness, of locks and of blocked sends: a send to a full channel simply has no step until there is room or a cancellation.
- Integer widths in C++ and Go, and 64-bit overflow of duration sums; the int range of the two counts is modelled.
- An empty KMP pattern: the caller always passes a non-empty one, and the source would read past its end.
- Panics in the middle of an update, and their recovery by the connection goroutine.
- The texts that come from elsewhere - network addresses, weather reports, beacon codes - which are inputs of `Dispatch.HandlePacket`, and the frequency, altitude, transponder, heading and speed fields. A weather report is answered in the same call, although the source fetches it in another goroutine.
- Telling tokens from passwords, checking signatures and password hashes, and the user database: their outcome is an input of the login.
- PostOffices.PostOffice.Search: the callback runs after the visited clients are collected; the source calls it during the tree walk under the read lock.
- PostOffices.Client.Send: the sequential classes keep everything ever queued and let a cancelled client refuse any packet; a send begins and ends in one step, and the bounded channel, blocking and the worker are in the Outbound module.
- SendFast.Step: a report and its send are one step, whose outcome depends on whether the client was cancelled by its end; SendFastRuns and Outbound separate the two.
- Framing.Scanner.EventLoop: reading stops at the end of the stream; read errors and deadlines, which end it early, are not modelled.
- Stats.Services.RefreshAll: registration times and nicknames are not modelled, nor any wall-clock column.
- Rbac.Services.RunBootstrap: the ATC bindings of the last loop are not modelled; the eleven permission calls run over a list in the same order.
- Rbac.CatalogAgrees: the permission views of the catalogue, which copy the permission rows in id order.
- Column lengths of role and permission codes and names, database collation, and sorting by UTF-16 code unit where it differs from code point order.
- Null user or record numbers, which fail like non-positive ones.
- The web services, the frontend, mail, captcha, Redis, the database drivers and the plugin's memory patching.
- Login.ReadLoginPackets: of the errors only the codes are promised, not the wording; so too for Login.AttemptAuthentication.
- Dispatch.HandlePacket: the distance a search leaves in its client is not part of the effect; PostOffices.PostOffice.Search and Handlers.Server.Move state it.
