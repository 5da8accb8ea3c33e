# GaussMatrix: verified models of five cores

These Dafny modules model five parts of the GaussMatrix homeserver and prove what each of them is
for. `dafny verify dfyconfig.toml` checks the whole project.

- **State resolution and authorization** (`StateRes`, `Resolver`, `StateResLaws`, `StateResLocal`,
  `ResolutionLaws`, `Auth`, `AuthRules`, `AuthChain`, `InviteChain`, `MembershipLaws`, `Contents`,
  `ResolverCache`, `ParallelResolver`, `ParallelLaws`). The specification of `resolve` is a function of
  the *set* of input state maps; the methods that follow the source's loops are proved to compute it.
  `AuthRules` and `ResolutionLaws` say the same over the events and the members of their contents
  alone. Cached and threaded resolution are a sequential specification and a state machine over worker
  steps.
- **Ed25519** (`Limbs`, `Field`, `Scalars`, `Curve`, `Ed25519`, `SignatureLaws`). Limb loops with explicit carries are
  proved against integer arithmetic; decoding is proved inverse to encoding; verification accepts
  what signing makes.
- **The agent gateway** (`Gateway`, `AgentGateway`, `GatewayLedger`, `GatewayWindow`,
  `GatewayBudgets`, `GatewayAdmission`, `GatewayPolicy`, `GatewayCourses`, `GatewayAudit`,
  `GatewayTrace`, `Audit`, `Replay`). `Gateway` is the state machine,
  `AgentGateway.Server` the object proved to follow it, and the other modules hold laws of every run.
- **Rooms, sync and storage** (`RoomStore`, `Sync`, `SyncRemovals`, `RoomWriters`,
  `RoomTransactions`, `RoomRequests`, `CreatedRoom`, `FileStore`, `Placement`, `PlacementLaws`). Column contents are tied to the history that was
  appended; sync, concurrent writers and their transactions are run-level laws over that history.
- **Parsers and printers** (`Json`, `JsonRoundTrip`, `JsonGrammar`, `JsonLaws`, `PduCodec`, `PduFormat`,
  `NameLaws`). Reference grammars stand beside the readers, which accept exactly their texts.

`Orders`, `Text`, `Columns`, `Arith`, `Digits` and `Events` hold what these share.

## Hypotheses and inputs

- SHA-512, the audit digest, the ring hash, the event reference hash, UTF-8 validity and the
  third-party signature check are parameters. No injectivity is assumed of them, but where a law says
  so by name (`RoomWriters.GoodHash`); otherwise its conclusion names the collision
  (`Audit.TipPinsTheLog`) or the exact condition (`Placement.HistoryIgnoredIffCollisionFree`).
- Clock readings, timestamps and what an executor returns are inputs. Gateway laws assume a clock
  that does not go back; the rate limit also needs one that does not start at 0, and
  `GatewayWindow.LimitKeptIff` shows that this is exact.
- `Curve.PrimeField`, `Curve.RootOfMinusOne`, `Curve.DIsNotSquare`, `Ed25519.GroupLaws`,
  `Ed25519.OrderDividesL`, `Ed25519.BaseOrder` and that the base point's encoding decodes are stated as
  hypotheses of the lemmas that use them.
- Resolution takes acyclic `auth_events`, because the mainline walk has no cycle guard. Sync and the
  columns take separator-free identifiers and event ids that determine events (`RoomStore.Sound`).

Where the code and its comments differ, the model follows the code: the resolved-state cache is
described as holding only input-independent resolutions, but its key is the set of event ids alone
(`ResolverCache.ServedRightlyIff`, `ResolverCache.StaleAnswer`); the separator of the audit log is
described as absent from its fields, but nothing enforces that (`Audit.EntryWithSeparatorIsLost`); a
repeated transaction is described as never a duplicate, but the check is made before the room's lock
is taken, and what is promised holds exactly as `RoomTransactions.WrittenOnceIff` says.

## Model

| member | source | states |
|---|---|---|
| StateResLaws.ResolvedSlot | gauss-matrix/crates/gm-stateres/src/lib.rs:105-139 | slot by slot, for every input: an agreed slot keeps its event; any other is filled exactly when some event of the resolution order fills it and passes the rules against the partial state at that moment without its own slot, and then by the last that does |
| StateResLaws.ResolvedEventsAreContested | gauss-matrix/crates/gm-stateres/src/lib.rs:105-189 | no slot or event comes from nowhere: a slot not agreed holds a known event of the full conflicted set whose own slot it is |
| ResolutionLaws.ResolutionOrderIs | gauss-matrix/crates/gm-stateres/src/lib.rs:105-139 | which events the resolution order lists: exactly those proposed against some input or behind some inputs but not all, each once, first the controlling ones in power order, then the rest in mainline order by the power levels the first settled on |
| ResolutionLaws.FillsIff | gauss-matrix/crates/gm-stateres/src/lib.rs:174-189 | an event fills a slot as it is tried exactly if it is a known event of that type and state key which the table of `AuthRules.Permitted` allows against the other slots of the state so far |
| ResolutionLaws.UnconflictedIs | gauss-matrix/crates/gm-stateres/src/lib.rs:62-90 | a slot is agreed on an event exactly if every input fills it with that event |
| ResolutionLaws.FullConflictedIs | gauss-matrix/crates/gm-stateres/src/lib.rs:105-118 | an event is contested exactly if it is proposed for a slot not agreed on it, or paths of citations reach it from some input and not from every one |
| ResolutionLaws.ControlsIs | gauss-matrix/crates/gm-stateres/src/lib.rs:152-171 | the controlling events: create, power levels, join rules, bans, and leaves that someone else set, read off the contents |
| ResolutionLaws.SenderPowerIs | gauss-matrix/crates/gm-stateres/src/lib.rs:214-249 | a sender's power is the number under their name in `users`, else `users_default`, else 0; without readable power levels the creator has 100 and others 0 |
| ResolutionLaws.PowerOrderRanks | gauss-matrix/crates/gm-stateres/src/lib.rs:255-308 | each choice of the power order outranks every other event free to be chosen: its sender has more power, or as much and it is earlier, or as early and its id is smaller |
| ResolutionLaws.MainlineDepthIs | gauss-matrix/crates/gm-stateres/src/lib.rs:348-362 | on acyclic events the depth is d exactly if, within 10,000 citations of power levels, the first mainline event met has d older ones behind it, or it is 0 and none is met |
| ResolutionLaws.MainlineOrderRanks | gauss-matrix/crates/gm-stateres/src/lib.rs:364-373 | of two events in the mainline order the first is shallower, or as deep and earlier, or as early with the smaller id |
| Resolver.ResolveStates | gauss-matrix/crates/gm-stateres/src/lib.rs:105-139 | for acyclic events the result is a function of the set of input maps: reordering or repeating inputs and the iteration order of any hash set change nothing |
| Resolver.Separate | gauss-matrix/crates/gm-stateres/src/lib.rs:62-90 | the agreed slots are those every map fills with one event, and every other slot is listed with exactly its distinct candidates |
| Resolver.AuthDifferenceOf | gauss-matrix/crates/gm-stateres/src/lib.rs:193-210 | the events in the auth chain of some input and not of all |
| Resolver.ReverseTopologicalPowerSort | gauss-matrix/crates/gm-stateres/src/lib.rs:255-308 | for distinct events it ends, with the order that depends only on the set of events; `ResolutionLaws.PowerOrderRanks` says in raw terms which event that order puts first |
| Resolver.MainlineOf | gauss-matrix/crates/gm-stateres/src/lib.rs:335-339 | for acyclic events the walk ends with the power-levels ancestry of the starting event |
| Resolver.IndexPositions | gauss-matrix/crates/gm-stateres/src/lib.rs:340-344 | each mainline event is indexed by its distance from the root |
| Resolver.DepthOf | gauss-matrix/crates/gm-stateres/src/lib.rs:348-362 | the position of the nearest mainline event within the 10,000-hop guard, 0 without one |
| Resolver.MainlineSort | gauss-matrix/crates/gm-stateres/src/lib.rs:327-374 | for distinct acyclic events the order that depends only on the set of events and the power-levels event; `ResolutionLaws.MainlineOrderRanks` says in raw terms which it is |
| Resolver.TryApply | gauss-matrix/crates/gm-stateres/src/lib.rs:174-189 | an event enters its slot exactly when it is known, fills a slot and is authorized against the state without that slot |
| Resolver.Partition | gauss-matrix/crates/gm-stateres/src/lib.rs:114-118 | power events and the rest, each listed once |
| StateResLaws.PowerOrderIsGreedy | gauss-matrix/crates/gm-stateres/src/lib.rs:291-306 | every choice of the power order has the least sort key among the ready events, or among all remaining ones when a cycle leaves none ready; `ResolutionLaws.PowerOrderRanks` says what the keys stand for |
| StateResLaws.GreedyOrderIsUnique | gauss-matrix/crates/gm-stateres/src/lib.rs:291-306 | it is the only such order of those events |
| StateResLaws.PowerOrderIsListing | gauss-matrix/crates/gm-stateres/src/lib.rs:255-308 | the order is a permutation of the events |
| StateResLaws.SomeEventIsReady | gauss-matrix/crates/gm-stateres/src/lib.rs:294-301 | on acyclic events some event is always ready, so the cycle fallback is never taken |
| StateResLaws.PowerOrderIsTopological | gauss-matrix/crates/gm-stateres/src/lib.rs:255-308 | on acyclic events each comes after every auth parent of its own that is being ordered |
| StateResLaws.DepthIsNearest | gauss-matrix/crates/gm-stateres/src/lib.rs:348-362 | the depth is that of the first mainline event met, walking at most 10,000 hops of power-levels ancestry |
| StateResLaws.MainlineIsAncestry | gauss-matrix/crates/gm-stateres/src/lib.rs:311-339 | the mainline is the chain of power-levels ancestors, entry by entry |
| StateResLaws.MainlineOrderIsSorted | gauss-matrix/crates/gm-stateres/src/lib.rs:364-373 | the mainline order lists each event once, sorted by (depth, timestamp, id) |
| StateResLocal.ResolveIsLocal | gauss-matrix/crates/gm-stateres/src/lib.rs:105-189 | resolution reads only the auth chains of the inputs: event stores that agree on them resolve alike |
| ResolverCache.ServedAnswer | gauss-matrix/crates/gm-stateres/src/lib.rs:409-424 | the exact answer to any call of any run: the agreed state without conflict, otherwise the resolution of the first call of the run with the same id set |
| ResolverCache.ServedRightlyIff | gauss-matrix/crates/gm-stateres/src/lib.rs:409-424 | exact form: a conflicted call is served its own resolution exactly when the first conflicted call of the run with its id set resolves alike |
| ResolverCache.CachingIsTransparent | gauss-matrix/crates/gm-stateres/src/lib.rs:409-424 | what a caller can check: if conflicted calls with equal id sets are the same maps over agreeing events, every answer is that of plain resolution; conflict-free calls are free |
| ResolverCache.StaleAnswer | gauss-matrix/crates/gm-stateres/src/lib.rs:376-388 | without that condition it is not: two inputs over the same two ids get one answer between them |
| ResolverCache.HitsPlusMisses | gauss-matrix/crates/gm-stateres/src/lib.rs:409-424 | hits and misses add up to the number of conflicted lookups of the run |
| ResolverCache.InputKeyOf | gauss-matrix/crates/gm-stateres/src/lib.rs:379-388 | the key is the sorted listing of the set of input event ids |
| ParallelLaws.SameKeyIff | gauss-matrix/crates/gm-stateres/src/lib.rs:379-388 | two inputs have one key exactly if they mention the same event ids |
| ParallelLaws.BatchFillsCache | gauss-matrix/crates/gm-stateres/src/lib.rs:504-526 | in every interleaving a finished batch has added to the cache exactly the keys of its conflicted jobs, each with the answer to a job that has it, left the old entries alone, and missed at least once for each new key and at most once for each job that needed one |
| ResolverCache.CachedResolver.Resolve | gauss-matrix/crates/gm-stateres/src/lib.rs:409-424 | the object serves the answer and moves to the cache the specification gives |
| ParallelResolver.BatchAnswersEveryJob | gauss-matrix/crates/gm-stateres/src/lib.rs:478-526 | in every interleaving, whatever the jobs and the cache, when all workers have stopped every job has a result and the counters have grown by the number of conflicted jobs |
| ParallelResolver.BatchResolvesEveryJob | gauss-matrix/crates/gm-stateres/src/lib.rs:478-526 | if conflicted jobs with equal id sets resolve alike and the cache holds their resolutions, each result slot then holds the resolution of its own job |
| ParallelResolver.BatchOfRequests | gauss-matrix/crates/gm-stateres/src/lib.rs:478-526 | the same from a condition on the requests alone, over the cache any earlier calls left |
| ParallelResolver.JobsAreClaimedOnce | gauss-matrix/crates/gm-stateres/src/lib.rs:478-500 | at every moment of every interleaving a job has at most one holder, and none once answered |
| ParallelResolver.StepKeepsTracked | gauss-matrix/crates/gm-stateres/src/lib.rs:478-526 | every worker can always step, and its step keeps claims and counters in order, whatever the jobs and the cache |
| ParallelResolver.StepKeepsRight | gauss-matrix/crates/gm-stateres/src/lib.rs:504-526 | and keeps every carried, stored and cached answer right, also when two workers miss the same key together |
| AuthChain.AuthChainOf | gauss-matrix/crates/gm-stateres/src/auth.rs:517-534 | the worklist ends, on cyclic and incomplete maps too, with the auth chain of the roots |
| AuthChain.ChainIsReachability | gauss-matrix/crates/gm-stateres/src/auth.rs:517-534 | an id is in the chain exactly when a path of auth_events links leads to it from a root |
| AuthChain.ChainIsLeast | gauss-matrix/crates/gm-stateres/src/auth.rs:517-534 | the chain is contained in every set that holds the roots and is closed under parents |
| AuthChain.ChainIsIdempotent | gauss-matrix/crates/gm-stateres/src/auth.rs:517-534 | the chain of a chain is the chain |
| AuthChain.ChainDistributesOverUnion | gauss-matrix/crates/gm-stateres/src/auth.rs:517-534 | the chain of a union of roots is the union of the chains |
| AuthChain.ChainIsLocal | gauss-matrix/crates/gm-stateres/src/auth.rs:517-534 | the chain depends only on the parents of its own members |
| AuthChain.CheckWithChain | gauss-matrix/crates/gm-stateres/src/auth.rs:545-572 | the verdict with its errors: a missing chain event, a chain without a create, or the rules against the cited events |
| AuthChain.ChainVerdict | gauss-matrix/crates/gm-stateres/src/auth.rs:545-572 | exactly when each error is returned: an event reachable by citations is missing, none of them is a create, or the rules refuse the event against those it cites, in the order cited |
| AuthChain.AcceptedChainIsComplete | gauss-matrix/crates/gm-stateres/src/auth.rs:545-572 | an accepted event other than a create has a wholly present chain that holds a create, and cites a create directly |
| Auth.NewView | gauss-matrix/crates/gm-stateres/src/auth.rs:345-393 | one pass over the state events builds the view the rules are read from |
| AuthRules.AuthorizedIff | gauss-matrix/crates/gm-stateres/src/auth.rs:75-120 | the check accepts an event exactly if it is in the full table of the rules, written over the listed events and the members of their contents alone |
| AuthRules.RefusalIs | gauss-matrix/crates/gm-stateres/src/auth.rs:75-120 | which of the five errors a refused event gets, case by case |
| AuthRules.MemberVerdictIs | gauss-matrix/crates/gm-stateres/src/auth.rs:159-269 | the member rules: where an event may lead its target, for every standing, join rule, level, restricted join and third-party invite |
| AuthRules.RoomLevelIs | gauss-matrix/crates/gm-stateres/src/auth.rs:439-460 | the level the room asks for a key is the number its power-levels content has under that key, and the given default exactly if it has none |
| AuthRules.RoomEventLevelIs | gauss-matrix/crates/gm-stateres/src/auth.rs:405-420 | the level an event type takes is its number in `events`, else `state_default` or 50, else `events_default` or 0 |
| AuthRules.RoomPowerIs | gauss-matrix/crates/gm-stateres/src/auth.rs:473-489 | a user's level is their number in `users`, else `users_default`, else 0, and before any power levels 100 for the creator |
| AuthRules.CreatorIs | gauss-matrix/crates/gm-stateres/src/auth.rs:462-471 | the creator is the create event's sender from room version 11 on, and what its content names before |
| AuthRules.MembershipStands | gauss-matrix/crates/gm-stateres/src/auth.rs:369-430 | of a user's member events the first one listed counts |
| AuthRules.RoomRuleIs | gauss-matrix/crates/gm-stateres/src/auth.rs:431-437 | the join rule is that of the last join-rules event, "invite" without one |
| AuthRules.VouchedForIs | gauss-matrix/crates/gm-stateres/src/auth.rs:275-287 | a restricted join is authorized exactly if it names a joined user who reaches the invite level |
| AuthRules.RedeemsIs | gauss-matrix/crates/gm-stateres/src/auth.rs:293-338 | a third-party invite is redeemed exactly if some signature in its signed block, over the printed block without its signatures, is by the key advertised for its token |
| AuthRules.RedactsOwnServerIs | gauss-matrix/crates/gm-stateres/src/auth.rs:126-140 | a redaction is of the sender's own server exactly if what follows the first colon of both is the same |
| InviteChain.JoinedMeansInvited | gauss-matrix/crates/gm-stateres/src/auth.rs:173-226 | in a room whose join rule never opened it, every user ever joined is the creator or ends a finite chain of invites from the creator, each sent later than the one before and by someone joined at the time |
| InviteChain.CreatorIsFixed | gauss-matrix/crates/gm-stateres/src/auth.rs:75-95 | the creator those chains start from is one user throughout |
| InviteChain.CreateStays | gauss-matrix/crates/gm-stateres/src/auth.rs:75-95 | once there is a create event no later event replaces it or adds another |
| InviteChain.JoinNeedsReason | gauss-matrix/crates/gm-stateres/src/auth.rs:174-206 | an accepted join is the sender's own, by the creator or on an invite, unless the rule opens the room |
| InviteChain.InviteNeedsMember | gauss-matrix/crates/gm-stateres/src/auth.rs:207-226 | an accepted invite comes from a joined sender |
| MembershipLaws.ViewedStanding | gauss-matrix/crates/gm-stateres/src/auth.rs:369-430 | the view reports for a user exactly what the user's member slot of the current state says |
| MembershipLaws.MemberVerdict | gauss-matrix/crates/gm-stateres/src/auth.rs:159-269 | a member event is accepted exactly when its change is in the table of who may lead whom where, the levels being the numbers in the content of the room's power levels and their defaults |
| MembershipLaws.ChangeNeeds | gauss-matrix/crates/gm-stateres/src/auth.rs:159-269 | for every membership change of every authorized history: who may make it, from which standing and with which rank |
| MembershipLaws.SetLevelsBind | gauss-matrix/crates/gm-stateres/src/auth.rs:159-269 | the numbers in the content of a room's power levels bind in every authorized history: whoever bans, kicks, invites, redacts or sends has the level set there for it, or the default left by it |
| MembershipLaws.JoinsAreOwn | gauss-matrix/crates/gm-stateres/src/auth.rs:174-206 | nobody is joined by anybody else, nor straight from a ban |
| MembershipLaws.MembersAreRemovedByRank | gauss-matrix/crates/gm-stateres/src/auth.rs:227-254 | a joined user stops being joined by leaving, or at the hands of a joined user who outranks them and has the level |
| MembershipLaws.BansEndInLeave | gauss-matrix/crates/gm-stateres/src/auth.rs:174-269 | a banned user's next other membership is "leave" |
| MembershipLaws.OnlyMembersSend | gauss-matrix/crates/gm-stateres/src/auth.rs:75-120 | every other event was sent by a joined user whose level is at least the number the power levels hold for its type, or the default for state and other events, redactions of the sender's own domain excepted |
| JsonRoundTrip.ParsePrint | gauss-matrix/crates/gm-api/src/json.rs:160-234 | printing then parsing gives the value back exactly when its nesting is within 128, and the depth error otherwise |
| JsonRoundTrip.PrintIsInjective | gauss-matrix/crates/gm-api/src/json.rs:160-234 | different values within the nesting limit print differently |
| JsonRoundTrip.PrintIsCanonical | gauss-matrix/crates/gm-api/src/json.rs:76-89 | whatever parses is printed in a form that parses to the same value, with keys sorted and the last duplicate kept |
| JsonGrammar.ParseIff | gauss-matrix/crates/gm-api/src/json.rs:76-89 | a text parses to a value exactly if the grammar of RFC 8259, written as a relation between stretches of text and values, says that it denotes the value: whitespace, every escape and surrogate pair, the last of equal keys, nesting of at most 128 |
| JsonGrammar.GrammarIsUnambiguous | gauss-matrix/crates/gm-api/src/json.rs:76-89 | a text denotes at most one value, and the printed form of that value denotes it too |
| JsonGrammar.UnicodeIs | gauss-matrix/crates/gm-api/src/json.rs:360-379 | a unicode escape reads as a character exactly if it is its UTF-16 unit, or from 0x10000 on its surrogate pair |
| JsonGrammar.CollectIs | gauss-matrix/crates/gm-api/src/json.rs:279-308 | an object holds under each key the value given last, keys ascending |
| JsonLaws.ErrorExplains | gauss-matrix/crates/gm-api/src/json.rs:264-436 | an error is true of the text: at the reported place no character is spelled, or no integer; or a whole value ends before it; and the depth error means more than 128 brackets opened |
| JsonLaws.PrintIsShortest | gauss-matrix/crates/gm-api/src/json.rs:160-234 | no text that denotes a value is shorter than the printed one |
| Json.Write | gauss-matrix/crates/gm-api/src/json.rs:160-190 | the printer appends exactly the printed form |
| Json.WriteString | gauss-matrix/crates/gm-api/src/json.rs:218-234 | quotes, backslashes and control characters escaped, everything else as it is |
| Json.ParseText | gauss-matrix/crates/gm-api/src/json.rs:76-89 | one value surrounded by whitespace, and the error position otherwise |
| Json.Parser.ParseValue | gauss-matrix/crates/gm-api/src/json.rs:264-277 | the grammar's value at the position, or its error; the parser stops after it and terminates by consuming input |
| Json.Parser.ParseMembers | gauss-matrix/crates/gm-api/src/json.rs:279-308 | an object's members up to the brace, later keys replacing earlier ones |
| Json.Parser.ParseArray | gauss-matrix/crates/gm-api/src/json.rs:310-329 | an array's items up to the bracket |
| Json.Parser.ParseString | gauss-matrix/crates/gm-api/src/json.rs:331-358 | the string body through all escapes |
| Json.Parser.ParseUnicodeEscape | gauss-matrix/crates/gm-api/src/json.rs:360-379 | four hex digits, or a surrogate pair of them |
| Json.Parser.ParseHex4 | gauss-matrix/crates/gm-api/src/json.rs:381-389 | the value of four hex digits |
| Limbs.AddLimbs | gauss-matrix/crates/gm-util/src/ed25519.rs:291-300 | the exact sum with its carry |
| Limbs.SubLimbs | gauss-matrix/crates/gm-util/src/ed25519.rs:307-323 | the exact difference with its borrow |
| Limbs.LessThan | gauss-matrix/crates/gm-util/src/ed25519.rs:603-610 | limb order is numeric order |
| Limbs.MulWide | gauss-matrix/crates/gm-util/src/ed25519.rs:325-346 | eight limbs equal to the integer product, every index in bounds |
| Field.FeAdd | gauss-matrix/crates/gm-util/src/ed25519.rs:209-216 | the exact result of add on any operands |
| Field.AddNumIsSum | gauss-matrix/crates/gm-util/src/ed25519.rs:209-216 | on canonical operands that is the canonical sum mod 2^255-19 |
| Field.AddKeepsResidue | gauss-matrix/crates/gm-util/src/ed25519.rs:209-216 | on any two words it stays in the residue class exactly when they sum to less than 2^257-38 |
| Field.FeSub | gauss-matrix/crates/gm-util/src/ed25519.rs:218-226 | the exact result of sub on any operands |
| Field.SubNumIsDifference | gauss-matrix/crates/gm-util/src/ed25519.rs:218-226 | on canonical operands that is the canonical difference mod 2^255-19 |
| Field.SubKeepsResidue | gauss-matrix/crates/gm-util/src/ed25519.rs:218-226 | on any two words it stays in the residue class exactly when the subtrahend is at most p above the minuend |
| Field.SubNeedsCanonical | gauss-matrix/crates/gm-util/src/ed25519.rs:218-226 | so it leaves the residue class for every canonical minuend and every word further above it |
| Field.Canonical | gauss-matrix/crates/gm-util/src/ed25519.rs:199-207 | p is subtracted once when that is possible |
| Field.Mul38Add | gauss-matrix/crates/gm-util/src/ed25519.rs:366-376 | base + 38 * hi with its overflow limb |
| Field.Reduce512 | gauss-matrix/crates/gm-util/src/ed25519.rs:348-364 | ends, with the canonical residue of its 512-bit input |
| Field.FeMul | gauss-matrix/crates/gm-util/src/ed25519.rs:228-231 | the product mod 2^255-19 of any operands, canonical or not |
| Field.FePow | gauss-matrix/crates/gm-util/src/ed25519.rs:249-260 | square-and-multiply over 256 exponent bits is exponentiation |
| Field.FeInvert | gauss-matrix/crates/gm-util/src/ed25519.rs:238-247 | inversion is the power p - 2 |
| Scalars.LeToLimbs | gauss-matrix/crates/gm-util/src/ed25519.rs:612-620 | 32 little-endian bytes and their limbs are one number |
| Scalars.LimbsToLe | gauss-matrix/crates/gm-util/src/ed25519.rs:622-628 | limbs and their little-endian bytes are one number |
| Scalars.ReduceScalarWide | gauss-matrix/crates/gm-util/src/ed25519.rs:554-576 | N mod L for every 512-bit N |
| Scalars.ScalarMulAdd | gauss-matrix/crates/gm-util/src/ed25519.rs:579-596 | (a * b + c) mod L for all 256-bit a and b and all c below L |
| Scalars.ScalarIsCanonical | gauss-matrix/crates/gm-util/src/ed25519.rs:599-601 | below L or not |
| Curve.SqrtRatioIsRoot | gauss-matrix/crates/gm-util/src/ed25519.rs:506-529 | a root of u / v is found exactly when there is one, and what is found is a root |
| Curve.CandidateSquared | gauss-matrix/crates/gm-util/src/ed25519.rs:506-516 | v times the candidate squared is u times an odd power of u * v^7 |
| Curve.CandidateOfSquare | gauss-matrix/crates/gm-util/src/ed25519.rs:506-529 | when u / v has a root, that product is u or -u, so one of the two checks succeeds |
| Curve.DenominatorNonZero | gauss-matrix/crates/gm-util/src/ed25519.rs:484-487 | because d is no square, the denominator of decoding is never zero |
| Curve.RootForIsOnCurve | gauss-matrix/crates/gm-util/src/ed25519.rs:478-489 | decoding finds an x exactly when some point of the curve has that y |
| Curve.DecodeEncode | gauss-matrix/crates/gm-util/src/ed25519.rs:462-502 | decoding the encoding of any valid point gives that point in affine form, sign included |
| Curve.DecodedIsOnCurve | gauss-matrix/crates/gm-util/src/ed25519.rs:478-502 | whatever decodes is on the curve, and encodes back to the same bytes exactly when its y is below p |
| Curve.DecodedSubIsExact | gauss-matrix/crates/gm-util/src/ed25519.rs:421-423 | for a decoded point the x - y that addition computes is right exactly when y is at most p above x |
| Curve.UnreducedKeyReachesSub | gauss-matrix/crates/gm-util/src/ed25519.rs:478-502 | key bytes with y = p + 1 decode with y unreduced, to a point whose x - y is wrong |
| Curve.AdditionLaw | gauss-matrix/crates/gm-util/src/ed25519.rs:421-437 | addition is the twisted Edwards law in projective form, with t z = x y kept |
| Curve.EncodeYIs | gauss-matrix/crates/gm-util/src/ed25519.rs:469-475 | the encoding is y with the sign in bit 255 |
| Ed25519.ScalarMul | gauss-matrix/crates/gm-util/src/ed25519.rs:443-454 | the loop over the scalar's bits is double-and-add |
| Ed25519.LadderIsMul | gauss-matrix/crates/gm-util/src/ed25519.rs:443-454 | under the group laws double-and-add is repeated addition |
| Ed25519.VerifyAcceptsSigned | gauss-matrix/crates/gm-util/src/ed25519.rs:634-702 | under the field and group hypotheses, and if L times the base point is the identity, every signature made with a seed is accepted under that seed's public key |
| Ed25519.AcceptedScalarIsUnique | gauss-matrix/crates/gm-util/src/ed25519.rs:676-702 | if the order of the base point is exactly L, for one key, message and R at most one S is accepted |
| Ed25519.EncodeIsInjective | gauss-matrix/crates/gm-util/src/ed25519.rs:462-475 | two points of the curve encode alike exactly when they are the same |
| Ed25519.ReducedMultiple | gauss-matrix/crates/gm-util/src/ed25519.rs:554-576 | multiples of the base point depend on the scalar mod L only |
| Ed25519.ClampedScalar | gauss-matrix/crates/gm-util/src/ed25519.rs:705-709 | a clamped scalar is a multiple of 8 between 2^254 and 2^255 |
| Ed25519.PublicKey | gauss-matrix/crates/gm-util/src/ed25519.rs:635-641 | the encoded multiple of the base point by the clamped secret |
| Ed25519.Sign | gauss-matrix/crates/gm-util/src/ed25519.rs:644-673 | the signature of the specification for the seed and the message; `SignatureLaws.SignatureIs` says which bytes are hashed |
| Ed25519.Verify | gauss-matrix/crates/gm-util/src/ed25519.rs:676-702 | true exactly on what the specification accepts; `SignatureLaws.AcceptsIff` is that equation in raw terms |
| SignatureLaws.SignatureIs | gauss-matrix/crates/gm-util/src/ed25519.rs:644-673 | R encodes the multiple of the base point by r, the digest mod L of the second half of the seed's digest followed by the message, and S is r + k * a mod L for k the digest of R, the public key and the message |
| SignatureLaws.AcceptsIff | gauss-matrix/crates/gm-util/src/ed25519.rs:676-702 | accepted exactly if S is below L, key and R decode, and [S]B = R + [k]A for k the digest mod L of R, A and the message |
| SignatureLaws.SignatureIsForItsMessage | gauss-matrix/crates/gm-util/src/ed25519.rs:644-702 | a signature made for one message is accepted for another exactly if the secret scalar annihilates the difference of the two digests mod L |
| SignatureLaws.PublicKeyIs | gauss-matrix/crates/gm-util/src/ed25519.rs:635-641 | the public key encodes the multiple of the base point by the pruned first half of the seed's digest |
| SignatureLaws.ClampIs | gauss-matrix/crates/gm-util/src/ed25519.rs:705-709 | clamping keeps bits 3 to 253, clears the rest and sets bit 254 |
| SignatureLaws.EncodedBits | gauss-matrix/crates/gm-util/src/ed25519.rs:462-475 | an encoding is y with the lowest bit of x above it |
| SignatureLaws.DecodedBits | gauss-matrix/crates/gm-util/src/ed25519.rs:478-503 | a decoded point has the y of the low 255 bits as they stand and an x of the parity in bit 255 |
| SignatureLaws.ModuliAre | gauss-matrix/crates/gm-util/src/ed25519.rs:183-188 | p is 2^255 - 19 and L is 2^252 + 27742317777372353535851937790883648493 |
| SignatureLaws.CurveConstants | gauss-matrix/crates/gm-util/src/ed25519.rs:398-419 | 121666 d = -121665 and 5 y = 4 for the base point |
| Audit.AppendedEntries | gauss-matrix/crates/gm-store/src/audit.rs:38-64 | after an append the log holds one more entry, read back exactly when actor and event are free of the separator |
| Audit.DecodeEncode | gauss-matrix/crates/gm-store/src/audit.rs:87-109 | an entry reads back exactly when neither text field holds the separator |
| Audit.DirtyEntryIsCut | gauss-matrix/crates/gm-store/src/audit.rs:87-109 | an event with the separator reads back cut off there, or not at all |
| Audit.EntryWithSeparatorIsLost | gauss-matrix/crates/gm-store/src/audit.rs:38-64 | with a separator in the event the append can vanish without a trace |
| Audit.AppendKeepsChain | gauss-matrix/crates/gm-store/src/audit.rs:38-55 | appending clean text keeps the log verifying |
| Audit.ChainedIs | gauss-matrix/crates/gm-store/src/audit.rs:38-55 | a log is chained exactly if each entry names the hash of the one before it, the first one 0, and its own hash is the digest of actor, event and that |
| Audit.AuditLog.Append | gauss-matrix/crates/gm-store/src/audit.rs:38-55 | writes the entry chained to the last hash under the next sequence key |
| Audit.AuditLog.Verify | gauss-matrix/crates/gm-store/src/audit.rs:68-80 | Ok exactly when every link holds, otherwise the index of the first that does not |
| Audit.TipPinsTheLog | gauss-matrix/crates/gm-store/src/audit.rs:68-80 | two verifying logs of equal length and equal last hash are identical, or show a digest collision at some entry |
| Columns.NumberedKeys | gauss-matrix/crates/gm-store/src/audit.rs:83-85 | zero-padded sequence keys scan in numeric order |
| Columns.NumberedAppend | gauss-matrix/crates/gm-store/src/audit.rs:38-55 | writing at key `count` appends to the scan |
| GatewayLedger.Conservation | gauss-matrix/crates/gm-agent/src/lib.rs:718-902 | in every run: admitted calls = executed + human-denied + pending; review outcomes = pending + approved + human-denied; the gauge equals the queue length once set |
| GatewayLedger.EachRequestSettlesOnce | gauss-matrix/crates/gm-agent/src/lib.rs:810-902 | in every run: request ids are never reused, each is settled at most once and only for the call queued under it, and a request is pending exactly while not settled |
| GatewayLedger.StepMoves | gauss-matrix/crates/gm-agent/src/lib.rs:718-902 | every step makes one of four moves on the queue, the request counter and the history |
| GatewayLedger.StepKeepsBalance | gauss-matrix/crates/gm-agent/src/lib.rs:718-902 | every step keeps counters, gauge, queue and history in balance |
| GatewayWindow.LimitKeptIff | gauss-matrix/crates/gm-agent/src/lib.rs:504-519 | for every limit n > 0: all runs under it keep every window (t-60, t] of the full history at n admitted calls or fewer exactly when the clock does not start at 0 |
| GatewayWindow.RateLimitHolds | gauss-matrix/crates/gm-agent/src/lib.rs:504-519 | from clock reading 1 on, an agent always mediated under one limit n > 0 has at most n admitted calls in every window, despite pruning for other agents and separate clock readings |
| GatewayWindow.RateLimitFailsAtZero | gauss-matrix/crates/gm-agent/src/lib.rs:508-513 | at clock reading 0 the saturating cutoff admits any number of calls under any limit |
| GatewayWindow.PruneKeeps | gauss-matrix/crates/gm-agent/src/lib.rs:509-511 | pruning drops only calls that have left the window |
| GatewayBudgets.DailyCallLimitHolds | gauss-matrix/crates/gm-agent/src/lib.rs:521-562 | an agent always mediated under one daily limit never has more calls admitted on a day, across rollovers between check and record |
| GatewayBudgets.DailyTokenBudgetHolds | gauss-matrix/crates/gm-agent/src/lib.rs:548-568 | tokens spent on a day stay below the budget plus one execution's cost plus what humans approved that day |
| GatewayBudgets.CheckedBudget | gauss-matrix/crates/gm-agent/src/lib.rs:737-781 | what the checks let through is within both budgets on the day of the check |
| GatewayAdmission.AdmittedIff | gauss-matrix/crates/gm-agent/src/lib.rs:718-786 | after any run from a clock of 1 or later a call is admitted exactly if it is in scope and its agent's own history leaves room in the last minute, in the day's calls and in the day's tokens; and of the checks that fail the first decides the refusal |
| GatewayAdmission.RunStands | gauss-matrix/crates/gm-agent/src/lib.rs:504-568 | what the gateway holds of an agent stands, after every run, for that agent's admitted calls and spent tokens |
| GatewayAudit.EveryRunIsAudited | gauss-matrix/crates/gm-agent/src/lib.rs:718-902 | every run on clean names leaves a log that verifies, and for every agent the replayed token total is the metered counter; clean names hold no separator, and those of executed tools no `tokens=` |
| GatewayAudit.ExecutionReplays | gauss-matrix/crates/gm-agent/src/replay.rs:161-168 | every run of a tool replays with its own success flag and token count exactly when the tool's name holds neither `ok=` nor `tokens=` |
| GatewayTrace.RunReplaysAsItWent | gauss-matrix/crates/gm-agent/src/replay.rs:192-212 | in every run under plain names an agent's replayed session is, entry by entry, what was done for the agent: refusals with their reasons, allowances, requests, approvals, denials and executions with their results |
| GatewayTrace.CountersTell | gauss-matrix/crates/gm-agent/src/lib.rs:225-230 | in every run each outcome series counts exactly the deeds of its kind, and no other series counts anything |
| GatewayTrace.DelegationClassifies | gauss-matrix/crates/gm-agent/src/replay.rs:150-154 | a delegation is read as its delegator's exactly if the delegator's name holds no ": " |
| GatewayTrace.PolicyRefusalClassifies | gauss-matrix/crates/gm-agent/src/replay.rs:135-181 | a policy refusal is read as one whatever its tool and room; lemmas of the same form cover every other text written |
| GatewayCourses.EachCallRunsItsCourse | gauss-matrix/crates/gm-agent/src/lib.rs:718-902 | in every run calls are named call-0, call-1 and so on, each name once; a call waiting for a human has been reflected and nothing more, every other named call has its one result or one denial, in order, and nothing is reflected under another name |
| GatewayCourses.StepAdds | gauss-matrix/crates/gm-agent/src/lib.rs:718-902 | what one step reflects and queues: the call with its tool and arguments, the result with the executor's answer, the receipt with the decider's decision, under the id of their call |
| GatewayCourses.AwaitedIsQueued | gauss-matrix/crates/gm-agent/src/lib.rs:815-834 | a caller told to wait is given the request under which its call was queued |
| GatewayCourses.RefusedIsTold | gauss-matrix/crates/gm-agent/src/lib.rs:725-783 | a refused caller is told the check that failed and its limit |
| GatewayAudit.TotalsAgreeIff | gauss-matrix/crates/gm-agent/src/replay.rs:184-190 | for every tool name: whatever its first call reports, the total replayed after it is the metered one, exactly when the name holds neither `tokens=` nor the log's separator |
| GatewayAudit.TokensForged | gauss-matrix/crates/gm-agent/src/replay.rs:184-190 | for every tool name that holds `tokens=` some run replays with another token count than it reported |
| GatewayAudit.OwnKeyReads | gauss-matrix/crates/gm-agent/src/replay.rs:184-190 | the word read for a key in the tool's name is fixed by the name, or is the success flag's field |
| GatewayAudit.ReplayedGrows | gauss-matrix/crates/gm-agent/src/replay.rs:121-130 | the replayed total grows by the tokens of the new entry, for its own agent only |
| Replay.KeyReadsBack | gauss-matrix/crates/gm-agent/src/replay.rs:184-190 | the word after the first occurrence of a key is what was written there |
| NameLaws.ParseKvIs | gauss-matrix/crates/gm-agent/src/replay.rs:184-190 | the word read for a key is the next one between Unicode white space after the key's first occurrence, or the white space there if that is all |
| NameLaws.ExecutedKindIs | gauss-matrix/crates/gm-agent/src/replay.rs:159-165 | an execution replays as successful exactly if "true" follows `ok=`, and with the 64-bit number that follows `tokens=`, 0 without one |
| Replay.SessionIsExact | gauss-matrix/crates/gm-agent/src/replay.rs:194-212 | a session is exactly its agent's entries, in log order, each under its own global position |
| Replay.SessionsPartition | gauss-matrix/crates/gm-agent/src/replay.rs:216-245 | every position of the log is in exactly one session, that of its actor |
| Replay.AgentsAreActors | gauss-matrix/crates/gm-agent/src/replay.rs:216-225 | there is one session for each actor of the log |
| Replay.ReplaySession | gauss-matrix/crates/gm-agent/src/replay.rs:194-212 | the loop collects the agent's session |
| Replay.ReplayAll | gauss-matrix/crates/gm-agent/src/replay.rs:216-245 | one session per distinct actor, in order of first appearance |
| AgentGateway.Server.Mediate | gauss-matrix/crates/gm-agent/src/lib.rs:718-837 | the new state and the outcome, check by check in the source's order |
| AgentGateway.Server.Resolve | gauss-matrix/crates/gm-agent/src/lib.rs:843-902 | the new state and the outcome of settling a request, or the unknown-request error with nothing changed |
| AgentGateway.Server.IsRateLimited | gauss-matrix/crates/gm-agent/src/lib.rs:504-514 | over the limit or not after pruning, zero meaning unlimited |
| AgentGateway.Server.RollDailyEntry | gauss-matrix/crates/gm-agent/src/lib.rs:527-537 | today's entry, zeroed when the recorded day is another |
| AgentGateway.Server.NoteTokens | gauss-matrix/crates/gm-agent/src/lib.rs:565-568 | saturating addition to today's entry |
| AgentGateway.Server.HandleInRoom | gauss-matrix/crates/gm-agent/src/lib.rs:610-631 | mediation under the caller's own grant, or a refusal of an agent not on the roster |
| AgentGateway.Server.HandleDelegated | gauss-matrix/crates/gm-agent/src/lib.rs:641-674 | a delegated call has exactly the outcome of the worker's own call; the delegator adds one audit entry |
| AgentGateway.Server.HandleManaged | gauss-matrix/crates/gm-agent/src/lib.rs:480-500 | mediation for an agent of the service's namespace, refusal otherwise |
| AgentGateway.ManagedIsMinted | gauss-matrix/crates/gm-agent/src/appservice.rs:43-59 | a valid user id is managed exactly when it has the form of the ids the namespace mints |
| AgentGateway.Server.HandleWithPolicy | gauss-matrix/crates/gm-agent/src/lib.rs:682-711 | mediation under the classification tightened by what the policy evaluates to, or the policy's refusal; a forbidden tool never reaches the policy |
| AgentGateway.FirstMatch | gauss-matrix/crates/gm-agent/src/policy.rs:165-171 | the first rule that matches the call's tool, room and arguments, or none |
| GatewayPolicy.PolicyClassIs | gauss-matrix/crates/gm-agent/src/lib.rs:682-711 | under a grant and a policy a call runs at once exactly if the grant covers its room and tool and configures it so and the policy allows it; when it is reviewed and when it is refused, exactly |
| GatewayPolicy.ClassifyIs | gauss-matrix/crates/gm-agent/src/capability.rs:172-181 | a call's class is forbidden outside the grant, else that of the first override for its tool, else the default |
| GatewayPolicy.EvaluateIs | gauss-matrix/crates/gm-agent/src/policy.rs:165-171 | the first rule all of whose conditions hold of the call decides, else the default |
| GatewayPolicy.MatchesIs | gauss-matrix/crates/gm-agent/src/policy.rs:119-130 | a rule matches exactly if the tool and the room are those it names and the arguments contain its text |
| Placement.AddingMovesOnlyToTheNewShard | gauss-matrix/crates/gm-shard/src/lib.rs:60-102 | adding a shard changes a room's owner only to the new shard, wrap-around and collisions included |
| Placement.RemovingMovesOnlyItsRooms | gauss-matrix/crates/gm-shard/src/lib.rs:72-102 | removing a shard changes the owner only of rooms it owned |
| PlacementLaws.RoomIsPlaced | gauss-matrix/crates/gm-shard/src/lib.rs:60-102 | after any history without collisions a room belongs to the shard whose node, among the hashes of name, "#" and number of all shards present, is met first going up from the room's point and round |
| PlacementLaws.RingIs | gauss-matrix/crates/gm-shard/src/lib.rs:60-77 | after any history, collisions included, a point belongs to the shard that took it last as it joined and was not removed since |
| PlacementLaws.OwnerIs | gauss-matrix/crates/gm-shard/src/lib.rs:90-102 | on any ring the owner is the node met first, and there is none exactly on the empty ring |
| PlacementLaws.ShardsArePresent | gauss-matrix/crates/gm-shard/src/lib.rs:60-77 | a shard is present exactly if it was added and not removed since |
| Placement.HistoryIgnoredIffCollisionFree | gauss-matrix/crates/gm-shard/src/lib.rs:60-77 | the ring is a function of the shards present exactly when no two of them share a point |
| Placement.RingIgnoresHistory | gauss-matrix/crates/gm-shard/src/lib.rs:60-77 | without collisions any two histories ending with the same shards give the same ring |
| Placement.CollisionRemembersOrder | gauss-matrix/crates/gm-shard/src/lib.rs:60-68 | with a collision the shard added last owns the shared point |
| Placement.VnodeNamesAreDistinct | gauss-matrix/crates/gm-shard/src/lib.rs:64-67 | no two virtual nodes hash the same text, whatever the shard names hold |
| Placement.Map.Add | gauss-matrix/crates/gm-shard/src/lib.rs:60-68 | the shard's virtual nodes written over the ring, or nothing if it is present |
| Placement.Map.Remove | gauss-matrix/crates/gm-shard/src/lib.rs:72-77 | the shard's nodes dropped |
| Placement.Map.ShardFor | gauss-matrix/crates/gm-shard/src/lib.rs:90-102 | the owner of the first node at or after the room's point, wrapping to the first node |
| FileStore.CrashIsAtomic | gauss-matrix/crates/gm-store/src/file.rs:69-79 | reopening after a put interrupted between any two file steps, or within the write of the temporary file, finds the contents before it or after it |
| FileStore.CrashedRun | gauss-matrix/crates/gm-store/src/file.rs:94-110 | the same after any earlier puts and deletes: everything but the interrupted put, or everything |
| FileStore.HexDecodeName | gauss-matrix/crates/gm-store/src/file.rs:140-153 | decodes exactly the names of even byte length made of hex pairs of valid keys, and the second half of a pair is always there |
| FileStore.NameReadsBack | gauss-matrix/crates/gm-store/src/file.rs:130-153 | the name of a key decodes to the key exactly when the key is valid UTF-8 |
| NameLaws.HexDecodeIff | gauss-matrix/crates/gm-store/src/file.rs:140-153 | a file name decodes to a key exactly if it spells the key's bytes by two hex digits each, of either case, and they are UTF-8 |
| NameLaws.HexEncodeIs | gauss-matrix/crates/gm-store/src/file.rs:130-137 | the name written spells them in lower case |
| FileStore.TempIsSkipped | gauss-matrix/crates/gm-store/src/file.rs:69-79 | temporary files are never read as keys |
| FileStore.Open | gauss-matrix/crates/gm-store/src/file.rs:36-63 | the mirror of every readable file, in whatever order the directories list them |
| FileStore.Store.Put | gauss-matrix/crates/gm-store/src/file.rs:95-102 | mirror and disk agree again after the write |
| FileStore.Store.Delete | gauss-matrix/crates/gm-store/src/file.rs:104-109 | mirror and disk agree again after the deletion |
| PduCodec.DecodeEncode | gauss-matrix/crates/gm-svc/src/codec.rs:26-126 | a stored PDU decodes to itself exactly when its lengths are below 2^32 |
| PduCodec.CutsDoNotDecode | gauss-matrix/crates/gm-svc/src/codec.rs:85-126 | no strict prefix of a stored PDU decodes, and bytes after it are ignored |
| PduFormat.DecodeIff | gauss-matrix/crates/gm-svc/src/codec.rs:85-126 | bytes decode to a record exactly if they begin with its binary form, written byte by byte with little-endian lengths and numbers, and its fields are valid |
| PduFormat.EncodedIsRecord | gauss-matrix/crates/gm-svc/src/codec.rs:26-53 | the encoder writes that form of every record whose lengths fit |
| PduCodec.EncodePdu | gauss-matrix/crates/gm-svc/src/codec.rs:26-53 | the buffer holds the parts in order |
| PduCodec.DecodePdu | gauss-matrix/crates/gm-svc/src/codec.rs:85-126 | the record, or None on any short, malformed or invalid input |
| PduCodec.Reader.Chunk | gauss-matrix/crates/gm-svc/src/codec.rs:65-70 | the next n bytes, or None with fewer left |
| PduCodec.Reader.Text | gauss-matrix/crates/gm-svc/src/codec.rs:80-83 | a length-prefixed string if it is valid UTF-8 |
| PduCodec.RecordExtends | gauss-matrix/crates/gm-svc/src/codec.rs:85-126 | what is read from some bytes is read from any longer input too, with the rest left over |
| RoomStore.TimelineIs | gauss-matrix/crates/gm-svc/src/lib.rs:118-126 | a room's timeline lists the room's part of the history, each event once, by depth and then id; no other room's events leak in |
| RoomStore.TimelineIsUnique | gauss-matrix/crates/gm-svc/src/lib.rs:118-126 | it is the only such listing |
| RoomStore.KeysSortByDepth | gauss-matrix/crates/gm-svc/src/lib.rs:49-58 | timeline keys of a room sort by depth and then id |
| RoomStore.EventIsFound | gauss-matrix/crates/gm-svc/src/lib.rs:137-141 | an appended event is found by its room and id |
| RoomStore.EventsSinceIs | gauss-matrix/crates/gm-svc/src/lib.rs:102-115 | the events since a position are the history from there on |
| RoomStore.CurrentStateIs | gauss-matrix/crates/gm-svc/src/lib.rs:187-206 | the current state is each slot's last event |
| InviteChain.StateIsLast | gauss-matrix/crates/gm-svc/src/lib.rs:187-206 | a slot of the state after a history holds an event exactly if it is the last of that type and state key |
| RoomStore.CurrentStatePdusAre | gauss-matrix/crates/gm-svc/src/lib.rs:179-184 | the state events are those, in slot order |
| RoomStore.RoomService.Record | gauss-matrix/crates/gm-svc/src/lib.rs:72-92 | an append extends the history the three columns stand for |
| RoomStore.RoomService.StateIn | gauss-matrix/crates/gm-svc/src/lib.rs:187-206 | the loop over the state column yields each slot's last event |
| RoomStore.RoomService.EventsFrom | gauss-matrix/crates/gm-svc/src/lib.rs:102-115 | the loop over the stream yields the history from a position on |
| Sync.ClientFollowsServer | gauss-matrix/crates/gm-svc/src/server.rs:359-443 | in every run of appends and syncs, after a sync the client's overlay is exactly the server's state of each room its user is joined to, leaving and rejoining in one window included |
| Sync.DeltasPartition | gauss-matrix/crates/gm-svc/src/server.rs:380-415 | the delta timelines of a room the user stays joined to are exactly the events appended to it up to the last sync, each once and in order |
| Sync.SyncCatchesUp | gauss-matrix/crates/gm-svc/src/server.rs:359-443 | a sync brings a client that follows some prefix of the history up to date with all of it |
| Sync.JoinedThroughout | gauss-matrix/crates/gm-svc/src/server.rs:1010-1024 | a user joined at the end of a window joined within it, or was joined before it |
| Sync.AnsweredRoom | gauss-matrix/crates/gm-svc/src/server.rs:388-434 | exactly which rooms an incremental answer lists as joined and as left, with which timeline and which state; `SyncRemovals.LeftRoomsAre` says in raw terms which are left |
| SyncRemovals.LeftRoomsAre | gauss-matrix/crates/gm-svc/src/server.rs:1029-1043 | a room is listed as left exactly if its user is not joined to it and an event since the token says "leave" or "ban" of them |
| SyncRemovals.RemovedIsTold | gauss-matrix/crates/gm-svc/src/server.rs:395-434 | whoever was joined at the token and has left or been banned since is told so, with all that happened in the room |
| SyncRemovals.RemovedRoomsAreForgotten | gauss-matrix/crates/gm-svc/src/server.rs:359-443 | in every run, after a sync a client that forgets what it is told it left holds no room whose state has its user as gone |
| SyncRemovals.WholeRoomsAre | gauss-matrix/crates/gm-svc/src/server.rs:371-387 | an initial answer lists exactly the rooms the user is joined to, each with its whole state and timeline |
| NameLaws.PositionIs | gauss-matrix/crates/gm-svc/src/server.rs:364-368 | a token is an "s" and a 64-bit number, whose digits may follow a plus sign; anything else asks for everything |
| Sync.IsJoinedIs | gauss-matrix/crates/gm-svc/src/server.rs:223-237 | is_joined is membership in the server's state |
| Sync.Respond | gauss-matrix/crates/gm-svc/src/server.rs:359-443 | the loops over rooms and delta compute the answer; `SyncRemovals.LeftRoomsAre` and `SyncRemovals.WholeRoomsAre` say what it holds |
| Sync.GroupByRoom | gauss-matrix/crates/gm-svc/src/server.rs:380-387 | the delta grouped per room, in order |
| RoomWriters.EveryInterleavingIsLinear | gauss-matrix/crates/gm-svc/src/server.rs:899-951 | in every interleaving of sends and membership changes on a created room the depths are exactly 1 to n, each event cites exactly the one below it, every event passed the rules against the state before it, and with the lock free the state is the timeline's |
| RoomWriters.EveryInterleavingIsAuthorized | gauss-matrix/crates/gm-svc/src/server.rs:783-821 | if the rules allow the room's creation, the whole timeline is an authorized history; `RoomRequests.EveryEventWasAsked` says which events those are |
| RoomRequests.EveryEventWasAsked | gauss-matrix/crates/gm-svc/src/server.rs:783-951 | in every interleaving each event after the creation carries the request of some turn, by the thread asked: sender, type, state key, content and time |
| RoomRequests.CompletedChangeIsInForce | gauss-matrix/crates/gm-svc/src/server.rs:783-821 | in every interleaving, once a membership change is written the room's state has its target in the membership asked for, by an event of its actor |
| RoomRequests.ChangeByItself | gauss-matrix/crates/gm-svc/src/server.rs:783-821 | a change left to itself adds exactly one event, which carries it, if the rules allow it, and otherwise leaves the room as it was |
| RoomRequests.SendByItself | gauss-matrix/crates/gm-svc/src/server.rs:899-951 | a send left to itself does nothing under a recorded key; otherwise it adds exactly one event, which carries it, and records its id, if the rules allow it |
| RoomWriters.HolderTurn | gauss-matrix/crates/gm-svc/src/server.rs:200-206 | a step of the lock's holder keeps the room's invariant |
| RoomWriters.OutsideTurn | gauss-matrix/crates/gm-svc/src/server.rs:200-206 | a step of any other thread keeps it too |
| RoomWriters.ReadsAreOfColumns | gauss-matrix/crates/gm-svc/src/server.rs:918-923 | the timeline and the state a writer reads are those of the columns any history with these events of the room has left |
| RoomWriters.EveryInterleavingIsStored | gauss-matrix/crates/gm-svc/src/server.rs:899-951 | under a hash with valid, distinct, separator-free ids, every interleaving of well-formed requests leaves a timeline the columns can hold, and with the lock free they hold it in key order and its state in slot order |
| RoomTransactions.WrittenOnceIff | gauss-matrix/crates/gm-svc/src/server.rs:899-951 | for every schedule between two moments with no send under the key on its way: each send that found the key unrecorded was refused or wrote one event, so at most one is written exactly when all but one of those sends were refused, and with none refused exactly one exactly when one send found the key unrecorded |
| RoomTransactions.SendsGrowByPassed | gauss-matrix/crates/gm-svc/src/server.rs:899-951 | any threads sending one request the rules allow, in any interleaving that lets them return, grow the timeline by exactly the number of sends that found the key unrecorded |
| RoomTransactions.SerialSendsAppendOnce | gauss-matrix/crates/gm-svc/src/server.rs:899-951 | however many sends under a key there are and whatever runs between, if none passes the check while another is on its way at most one event is written |
| RoomTransactions.RetryAppendsOnce | gauss-matrix/crates/gm-svc/src/server.rs:899-951 | one send, run to its return among any other work, and then anything: if the rules allowed it exactly one event is ever written under its key and the key keeps its id, otherwise exactly as many as later sends find the key unrecorded, less those refused or still under way |
| RoomTransactions.RetryGrowsTimelineOnce | gauss-matrix/crates/gm-svc/src/server.rs:899-951 | with only that send and its retries running, the timeline grows by exactly one event if the rules allow the first, otherwise by that same exact number |
| RoomTransactions.RecordedStays | gauss-matrix/crates/gm-svc/src/server.rs:909-912 | after its key is recorded and every send under it has returned, no schedule writes under the key or changes its id |
| RoomTransactions.AppendWasChecked | gauss-matrix/crates/gm-svc/src/server.rs:899-951 | in every interleaving a written event's request was checked earlier by the same thread, which served it ever since, and before any moment at which its key is recorded |
| RoomTransactions.RunBalance | gauss-matrix/crates/gm-svc/src/server.rs:899-951 | in every run: the sends that found the key unrecorded are exactly those allowed, refused or waiting, and the events allowed are written or about to be |
| RoomTransactions.AnswersAreEvents | gauss-matrix/crates/gm-svc/src/server.rs:907-912 | every id a retry is answered with names an event in the timeline by the key's sender |
| RoomTransactions.BothCheckedBothAppend | gauss-matrix/crates/gm-svc/src/server.rs:909-916 | however two sends of one allowed request go on once both have been checked, and whoever else sends it, at least two events are under the key when all have returned |
| RoomTransactions.RacingSendsBothAppend | gauss-matrix/crates/gm-svc/src/server.rs:909-916 | the shortest such race: both checked, one sends, then the other, and both events end the timeline |
| RoomTransactions.RaceIsCounted | gauss-matrix/crates/gm-svc/src/server.rs:909-916 | of it two sends pass the check, none is refused and two events are written |
| CreatedRoom.CreatorCanSendTwice | gauss-matrix/crates/gm-svc/src/server.rs:899-951 | so on every created room two racing sends by its creator leave one message in the timeline twice |
| CreatedRoom.CreatorSendsByPassed | gauss-matrix/crates/gm-svc/src/server.rs:899-951 | and any interleaving of its creator's sends of one message leaves it there as often as a send found it unrecorded |
| CreatedRoom.CreatedRoomIsStored | gauss-matrix/crates/gm-svc/src/server.rs:823-882 | whatever its writers send, with the lock free the columns of a created room hold its timeline and state |
| CreatedRoom.InertKeepsView | gauss-matrix/crates/gm-stateres/src/auth.rs:345-393 | state events of types the rules do not read, such as name and topic, leave the view of the state as it was |
| CreatedRoom.CreatedRoomIsAuthorized | gauss-matrix/crates/gm-svc/src/server.rs:823-882 | whatever its writers do, a created room's timeline is an authorized history |
| CreatedRoom.OpeningIsAuthorized | gauss-matrix/crates/gm-svc/src/server.rs:823-882 | create, creator's join, power levels, and the optional name and topic pass the rules one after the other |
| RoomRequests.RoomOpens | gauss-matrix/crates/gm-svc/src/server.rs:825-882 | what a created room opens with: create, join, and power levels of 100 for the creator and 0 for others, then name and topic exactly if given, each with just these members |
| CreatedRoom.SlotOrderIsState | gauss-matrix/crates/gm-svc/src/lib.rs:179-184 | state events in slot order are their own current state |
| RoomWriters.CreateRoom | gauss-matrix/crates/gm-svc/src/server.rs:859-880 | the initial events in order, linear from depth 1 |

## Left out

- ResolverCache.CachingIsTransparent: needs conflicted calls with equal id sets to be equal requests; `ResolverCache.ServedRightlyIff` is the exact condition.
- StateResLaws.PowerOrderIsTopological: does not cover cyclic `auth_events`, for which the source falls back to all remaining events.
- Ed25519.VerifyAcceptsSigned: primality, the group laws and the order of the base point are hypotheses, not proved.
- GatewayWindow.RateLimitHolds: one limit for the agent throughout; a limit changed between calls is not covered.
- GatewayBudgets.DailyTokenBudgetHolds: human-approved executions are added to the bound, because the source does not check them against the budget.
- GatewayAudit.EveryRunIsAudited: runs short enough for 20-digit sequence keys, and names without the separator, those of executed tools without `tokens=`; `GatewayAudit.TotalsAgreeIff` shows what it asks of tool names to be exact.
- GatewayTrace.RunReplaysAsItWent: names without the separator, tools without `ok=` and `tokens=`, and runs short enough for 20-digit sequence keys; `GatewayAudit.ExecutionReplays` and `GatewayTrace.DelegationClassifies` show which names are misread.
- SignatureLaws.AcceptsIff: of a key and an R that, if they decode, decode to canonical points; `Curve.UnreducedKeyReachesSub` shows others. The group laws and the order of the base point are hypotheses.
- PlacementLaws.RoomIsPlaced: without collisions between shards; `PlacementLaws.RingIs` covers them point by point.
- JsonLaws.ErrorExplains: an unexpected character or end is only placed within the text.
- Sync.ClientFollowsServer: takes an append as one step; in the source the stream position is a count read before the write, so appends to different rooms can collide.
- RoomWriters.EveryInterleavingIsLinear: one locally created room and no federation appends, which take no room lock; the global stream write of an append is not among the steps.
- Sync.Respond: lists rooms as a map, not in id order, and leaves out typing, receipts and presence.
- AgentGateway.Server.Mediate: counters are unbounded integers (the source's per-day call count is 32 bits wide).
- AgentGateway.Server.HandleManaged: the registration is its namespace alone, without tokens and push address.
- PduCodec.DecodePdu: the memory a corrupt count makes the source reserve is not modelled.
- FileStore.CrashIsAtomic: a rename is atomic and a finished write is durable; disk errors are not modelled, and neither is the empty key, whose file would be the directory itself.
- RoomTransactions.RetryAppendsOnce: sends within one room; the source keys transactions by sender and id across rooms, and joins the two with a separator.
- Json.ParseText: numbers with a fraction or an exponent, which the source reads as floating point, are not modelled.
- Json.Parser.ParseValue: number syntax is that of integers; fractions and exponents are not modelled.
- JsonRoundTrip.PrintIsCanonical: of documents whose numbers are integers.
- JSON numbers that are not integers, or exceed 2^53 in magnitude, and their floating-point form.
- The compression functions of SHA-256 and SHA-512 and the standard hasher.
- Content round trips of grants and policies, memory and resource operations of the gateway beyond their audit entries, redaction, accounts, sessions, devices, typing, presence and receipts: independent keyed records.
- HTTP ingress, federation transport, the RocksDB backend, metrics rendering and the client applications.
- Key publication, device keys, cross-signing, login and media are not part of this model.
