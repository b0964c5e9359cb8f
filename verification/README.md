# Verified model of the mihomo engine's caches, graphs, groups and small protocols

The engine under `core/Clash.Meta` keeps its DNS cache in an adaptive replacement cache, its pooled
connections in a ring buffer, and its proxy groups in a graph that is sorted, built and unwrapped at
match time. This project models those parts, and the two small concurrent protocols beside them, and
proves what they keep. `dafny verify dfyconfig.toml` checks everything.

| files | what they model |
|---|---|
| `ArcModel`, `ArcDirectory`, `ArcRuns`, `ArcSteering`, `ArcCache` | the cache: four lists, the adaptive target, ghosts; first as a state machine on values, then as the objects the code updates |
| `Mask`, `DequeCost`, `Deque` | the deque: bit masks as a modulus, the amortised cost of copying, and the buffer as a sequence |
| `Graphs`, `DagSort`, `LoopLocate`, `GroupSort` | the in-place sort of the proxy groups, and the report of loops |
| `SubRules`, `DialerProxies`, `DialCycles` | the two cycle checks of the configuration, and what the second one does not see |
| `Registry`, `Members`, `Arrangement`, `Fallbacks`, `Configuration` | building groups in sorted order, which proxies each group and GLOBAL hold, the walks that unwrap nested groups, when empty fallbacks are found, and sort and construction end to end |
| `Selection`, `FilterOrder`, `Answers`, `GroupBase`, `Unwraps` | what a group offers: filters, order and exclusions, which names that answers, and that it is what the walks can select |
| `ProviderProtocol`, `ProviderCalls`, `MixedReads` | the version-keyed cache of that under concurrent updates: calls run to their end, and contents that change while they are read |
| `JumpHash`, `RoundRobin` | the load-balancing strategies |
| `DotPool`, `DotOutcomes`, `DotClient` | the DNS-over-TLS pool (connection reuse, section 3.4 of RFC 7858) |
| `PacketSender`, `SendOutcomes`, `NatMapping` | the UDP packet sender: its channel, what becomes of each packet, and its address tables |
| `Seqs`, `Counting`, `Arith` | sequences without repetition, occurrences, remainders |

Code that changes objects in place is a class whose methods are tied to a state machine or a function on
values; what the repository promises is proved of that state machine or function, for every sequence of
operations and every interleaving. Map iteration order, regular expressions, liveness of proxies, dial
and exchange results, and the selection state of groups are arbitrary.

Findings that a reader of the code may not expect:

- Pushes and pops on a fresh deque copy at most two elements per push and one per pop, whatever the base
  capacity; no constant has to be added (`DequeCost.FreshCopies`).
- A Get of a ghost misses, yet brings the ghost back to the front of T2, where it keeps missing until it
  is set again (`ArcRuns.GetParksGhost`, `ArcRuns.MissesUntilSet`).
- The group sort looks at a group's `proxies` but not at its `empty-fallback`. A fallback that names a
  group placed later is reported as not found although the configuration has no loop:
  `Registry.FallbackLookup` says exactly when, and `Registry.FallbackOutOfOrder` gives a sorted
  configuration for which it happens. Every sorted order has all fallbacks in place exactly when `proxies`
  references lead from each group to the group it falls back to (`Fallbacks.FallbacksPrecede`).
- A proxy may dial through a group, but the check of dialer references does not look into groups. In an
  accepted configuration dialling can go round exactly when some proxy can be reached from the group it
  dials through (`DialCycles.AcceptedGoesRound`); a proxy p that dials through a group G holding p is
  accepted (`DialCycles.SampleGoesRound`).
- Within one provider, and over all of them once there are several filters, a filtered group keeps the first
  proxy of each name before it excludes any. If that one is of an excluded type the name is gone, although a
  later proxy of the name is of another type: `Answers.FirstBroughtDecides` and `Answers.SomeProviderDecides`
  say exactly which names are answered, and `Answers.HiddenByExcluded` gives a group for which it happens.
- A configured proxy called GLOBAL is replaced by the GLOBAL group, which holds it
  (`Members.ParsedStands`, `Members.GlobalHolds`).
- `GetProxies` of a group without providers answers with an empty list; the empty fallback is only
  reached past the version comparison (`GroupBase.GroupBase.GetProxies`,
  `ProviderProtocol.EmptyExactlyWithoutProviders`). No configured group
  is built without a provider (`Registry.AddGroupsOffer`), and GLOBAL is given one.
- The packet sender reads its address table and writes it in two lock sections, with a name resolution in
  between. A mapping of the same key that lands in between wins in the table, and that packet alone goes
  elsewhere: `NatMapping.LaterPacketsAgree` says exactly when. The repository avoids it by order alone: the
  only other call that adds a mapping (core/Clash.Meta/tunnel/tunnel.go:480) comes before the Process loop is
  started (core/Clash.Meta/tunnel/tunnel.go:495) in the same goroutine
  (`NatMapping.SameDestinationSameAddress`).

## Model

| member | source | states |
|---|---|---|
| ArcModel.GrowTarget | core/Clash.Meta/common/arc/arc.go:152-163 | on a B1 hit the target grows by at least one unless it is at the capacity, and the division is by a non-empty list |
| ArcModel.ShrinkTarget | core/Clash.Meta/common/arc/arc.go:167-178 | on a B2 hit the target shrinks by at least one unless it is zero, and the division is by a non-empty list |
| ArcModel.MakeRoom | core/Clash.Meta/common/arc/arc.go:182-202 | Case IV leaves a free live slot and a free slot in T1+B1 and in the directory; every back element it takes exists |
| ArcModel.Request | core/Clash.Meta/common/arc/arc.go:147-204 | every branch keeps the joint bounds on the four lists and the target, so no back of an empty list is taken and the last case is unreachable |
| ArcDirectory.RequestRefinesDbl | core/Clash.Meta/common/arc/arc.go:147-227 | whatever the target, T1+B1 and T2+B2 evolve as two plain LRU lists of joint capacity 2c, and drop the same element |
| ArcDirectory.DblMembers | core/Clash.Meta/common/arc/arc.go:182-211 | a request adds the key and removes exactly the dropped one, leaving the directory free of repetition |
| ArcDirectory.RequestKeepsRecency | core/Clash.Meta/common/arc/entry.go:22-32 | both halves stay strictly ordered by last request, newest first; keys of T1/B1 were requested once since they entered, keys of T2/B2 at least twice |
| ArcDirectory.DroppedIsOldest | core/Clash.Meta/common/arc/arc.go:206-211 | what leaves the directory is the element of its half requested longest ago |
| ArcRuns.SetKeepsCoherent | core/Clash.Meta/common/arc/arc.go:80-98 | a Set keeps map and lists in agreement, B1 and B2 all ghosts and T1 none, and writes the value with the expiry rounded down to seconds |
| ArcRuns.GetKeepsCoherent | core/Clash.Meta/common/arc/arc.go:113-120 | a Get, of a live key, a ghost or an unknown key, keeps that agreement |
| ArcRuns.StepKeepsSound | core/Clash.Meta/common/arc/arc.go:45-136 | bounds, agreement, recency order and request counts survive every Set, Get and Clear |
| ArcRuns.RunBounds | core/Clash.Meta/common/arc/arc.go:147-227 | after every sequence of operations: target within 0..c, live lists within c, T1+B1 within c, everything within 2c, no ghosts while the live lists are not full |
| ArcRuns.LiveItemsAreLatest | core/Clash.Meta/common/arc/arc.go:80-98 | a live item holds what the latest Set of its key since the last Clear wrote |
| ArcRuns.HitIsLatestSet | core/Clash.Meta/common/arc/arc.go:126-136 | a hit returns value and second-rounded expiry of the latest Set; a key not set since the last Clear misses |
| ArcRuns.HitExactlyWhenLive | core/Clash.Meta/common/arc/arc.go:113-136 | a lookup hits exactly when the key is in T1 or T2 and no ghost |
| ArcRuns.SetThenGet | core/Clash.Meta/common/arc/arc.go:73-136 | a Get right after a Set of the same key hits, with the value and expiry just written |
| ArcRuns.GetParksGhost | core/Clash.Meta/common/arc/arc.go:113-120 | a Get of a ghost misses and moves it to the front of T2, and the next Get of it misses too |
| ArcRuns.MissesUntilSet | core/Clash.Meta/common/arc/arc.go:113-120 | from any reachable state, a key that is absent or a ghost misses after every sequence of operations without a Set of it, Gets of it included |
| ArcDirectory.RequestKeepsRemembering | core/Clash.Meta/common/arc/arc.go:147-211 | a request keeps it true that every key requested and gone has been overtaken by a capacity's worth of directory keys |
| ArcRuns.GoneIsOvertaken | core/Clash.Meta/common/arc/arc.go:147-227 | in every run, a key requested since the last Clear is out of the directory only if at least c directory keys were requested after it |
| ArcRuns.RecentKeysStay | core/Clash.Meta/common/arc/arc.go:147-227 | the c most recently requested keys are always in the directory, whatever the adaptive target did |
| ArcRuns.RunDiscardsOldest | core/Clash.Meta/common/arc/arc.go:182-211 | after every sequence of operations, the key a request discards is the oldest of its half |
| ArcSteering.LiveRequest | core/Clash.Meta/common/arc/arc.go:147-151 | a live key moves to the front of T2; ghosts and target stay |
| ArcSteering.B1Request | core/Clash.Meta/common/arc/arc.go:152-166 | on a B1 hit the target grows by one, or by the whole quotient of the ghost lists, up to the capacity; T1 loses its last element to B1 exactly when it is longer than the new target, and else T2 loses its last one to B2 |
| ArcSteering.B2Request | core/Clash.Meta/common/arc/arc.go:167-181 | on a B2 hit the target shrinks likewise, down to zero; T1 loses its last element exactly when it is not empty and at least as long as the new target |
| ArcSteering.NewRequest | core/Clash.Meta/common/arc/arc.go:182-203 | Case IV by Case IV: what is dropped, and that T1 loses its last element to the ghosts exactly when it is longer than the target |
| ArcSteering.RequestBuries | core/Clash.Meta/common/arc/arc.go:147-227 | whether a request turns a live element into a ghost, which list it takes it from, by the target alone, and that it is the last of that list |
| ArcSteering.RunBuries | core/Clash.Meta/common/arc/arc.go:147-227 | in every run, a request turns exactly that key into a ghost, blanked with its expiry kept, and touches no other item it leaves in the map |
| ArcCache.RequestKeys | core/Clash.Meta/common/arc/arc.go:147-204 | a request on entries is the request on their keys, demoted and dropped element included |
| ArcCache.RequestLocates | core/Clash.Meta/common/arc/entry.go:22-32 | a request relinks only the entry asked for and the demoted one, each into the list its pointer then names |
| ArcCache.ARC.constructor | core/Clash.Meta/common/arc/arc.go:35-43 | a new cache is the empty state |
| ArcCache.ARC.Clear | core/Clash.Meta/common/arc/arc.go:45-56 | clearing gives the empty state, target zero |
| ArcCache.ARC.Detach | core/Clash.Meta/common/arc/entry.go:28-32 | takes the entry out of the list its pointer names and touches nothing else |
| ArcCache.ARC.SetMRU | core/Clash.Meta/common/arc/entry.go:22-26 | moves the entry from its list to the front of another |
| ArcCache.ARC.Replace | core/Clash.Meta/common/arc/arc.go:213-227 | demotes the oldest element of T1 or T2, as the target and the hit demand, and blanks it |
| ArcCache.ARC.DelLRU | core/Clash.Meta/common/arc/arc.go:206-211 | drops the back of the list and its key from the map |
| ArcCache.ARC.Adapt | core/Clash.Meta/common/arc/arc.go:152-178 | moves the target as the state machine does, after which a back element to demote exists |
| ArcCache.ARC.Req | core/Clash.Meta/common/arc/arc.go:147-204 | lists, map, pointers and fields of every entry after a request are those of the state machine |
| ArcCache.ARC.SetWithExpire | core/Clash.Meta/common/arc/arc.go:73-98 | the objects after a Set abstract to the state machine's Set, new key, live key and ghost alike |
| ArcCache.ARC.GetWithExpire | core/Clash.Meta/common/arc/arc.go:113-136 | the answer and the objects after a Get are those of the state machine's Get |
| Mask.MaskIsMod | core/Clash.Meta/common/deque/deque.go:609-618 | `&` with a power of two less one is the Euclidean modulus, negative operands included |
| Mask.MaskWraps | core/Clash.Meta/common/deque/deque.go:609-618 | an index off by less than one capacity wraps into the buffer |
| DequeCost.PushPaid | core/Clash.Meta/common/deque/deque.go:621-633 | a push, with the copy when the buffer is full, costs at most two of potential |
| DequeCost.PopPaid | core/Clash.Meta/common/deque/deque.go:636-640 | a pop, with the copy at exactly one quarter, costs at most one of potential |
| DequeCost.CopiesAmortised | core/Clash.Meta/common/deque/deque.go:621-674 | from any deque, n calls copy at most its potential plus two per push and one per pop |
| DequeCost.FreshCopies | core/Clash.Meta/common/deque/deque.go:65-144 | from an unallocated deque: at most two copies per push and one per pop, whatever the base capacity |
| DequeCost.BufferFits | core/Clash.Meta/common/deque/deque.go:621-640 | after any calls on an unallocated deque the buffer is the base capacity doubled; beyond that it is more than a quarter full, and smaller than twice the most it ever held |
| Deque.Deque.Next | core/Clash.Meta/common/deque/deque.go:616-618 | the cell after, wrapping at the end |
| Deque.Deque.Prev | core/Clash.Meta/common/deque/deque.go:611-613 | the cell before, wrapping at zero |
| Deque.Deque.Resize | core/Clash.Meta/common/deque/deque.go:662-674 | keeps the contents in a new buffer of the given size, starting at its first cell |
| Deque.Deque.GrowIfFull | core/Clash.Meta/common/deque/deque.go:621-633 | keeps the contents, makes room for one, and costs what the cost model says |
| Deque.Deque.ShrinkIfExcess | core/Clash.Meta/common/deque/deque.go:636-640 | keeps the contents and halves the buffer at exactly one quarter above the base capacity |
| Deque.Deque.PushBack | core/Clash.Meta/common/deque/deque.go:65-72 | appends; sizes and copies follow the cost model |
| Deque.Deque.PushFront | core/Clash.Meta/common/deque/deque.go:75-82 | prepends; sizes and copies follow the cost model |
| Deque.Deque.PopFront | core/Clash.Meta/common/deque/deque.go:87-100 | returns and removes the first element; freed cells are blank |
| Deque.Deque.PopBack | core/Clash.Meta/common/deque/deque.go:128-144 | returns and removes the last element; freed cells are blank |
| Deque.Deque.At | core/Clash.Meta/common/deque/deque.go:200-204 | reads the element at a logical index |
| Deque.Deque.Set | core/Clash.Meta/common/deque/deque.go:209-213 | replaces the element at a logical index and no other |
| Deque.Deque.Swap | core/Clash.Meta/common/deque/deque.go:592-602 | exchanges two elements, equal indices included |
| Deque.Deque.Clear | core/Clash.Meta/common/deque/deque.go:260-275 | empties the deque, keeps the buffer, and leaves every cell blank |
| Deque.Deque.ClearSlice | core/Clash.Meta/common/deque/deque.go:277-282 | blanks exactly the given cells |
| Deque.Deque.Grow | core/Clash.Meta/common/deque/deque.go:287-313 | keeps the contents, leaves room for n more, allocates only if there is none, and less than twice what is needed |
| Deque.Deque.SetBaseCap | core/Clash.Meta/common/deque/deque.go:582-588 | the base capacity becomes the least power of two from eight up that reaches the request |
| Deque.Deque.Rotate | core/Clash.Meta/common/deque/deque.go:438-481 | any integer turns the deque by n modulo its length, by moving the window or the elements, buffer unchanged |
| Deque.FullTurn | core/Clash.Meta/common/deque/deque.go:448-455 | on a full buffer, moving only the head is that rotation |
| Deque.RemainderTurn | core/Clash.Meta/common/deque/deque.go:442-446 | the truncated remainder, negative or not, names the turn of the Euclidean one |
| Deque.Deque.Insert | core/Clash.Meta/common/deque/deque.go:522-549 | inserts before the index, clamped to the ends, whichever side it swaps along and whether or not the push resizes |
| Deque.Deque.Remove | core/Clash.Meta/common/deque/deque.go:560-578 | removes and returns the element at the index, whichever side it swaps along and whether or not the pop resizes |
| DagSort.BuildGraph | core/Clash.Meta/config/utils.go:34-59 | in-degrees count every reference of every group, repeated entries included; a repeated name is found, whichever of name and mention comes first |
| DagSort.Release | core/Clash.Meta/config/utils.go:82-90 | releasing a placed group's list lowers exactly the counts it raised, never looks up a missing node, and queues each node reaching zero once |
| DagSort.PlaceKeepsOrder | core/Clash.Meta/config/utils.go:71-96 | a group nobody left refers to can stand before everything placed so far |
| DagSort.TopoSort | core/Clash.Meta/config/utils.go:60-96 | ends; what is left is referred to from what is left; if nothing is, the array is a sorted permutation of the input |
| LoopLocate.TraceBack | core/Clash.Meta/config/utils.go:98-117 | out-degrees and back references record exactly the references of the nodes left |
| LoopLocate.BackReferenceLives | core/Clash.Meta/config/utils.go:127-134 | every back reference followed names a node still there, with a positive out-degree |
| LoopLocate.Prune | core/Clash.Meta/config/utils.go:118-137 | ends; what is left is the greatest set in which every name has a predecessor and a successor |
| LoopLocate.Report | core/Clash.Meta/config/utils.go:138-144 | every name left, once |
| Graphs.PredClosedIsCyclic | core/Clash.Meta/config/utils.go:94-96 | a non-empty set in which everyone is referred to from inside holds a cycle, so a stuck sort means a loop |
| GroupSort.LoopsFound | core/Clash.Meta/config/utils.go:138-144 | the reported list is not empty and contains every group on a cycle |
| GroupSort.ProxyGroupsDagSort | core/Clash.Meta/config/utils.go:18-145 | for every map order: accepts exactly distinct names with acyclic references; the array is then a permutation with every group after each group it lists; otherwise a repeated name or the looping groups are reported |
| DialerProxies.HasCycle | core/Clash.Meta/config/utils.go:179-203 | with a visited set shared by the whole search, reports a cycle exactly when following dialers never ends |
| DialerProxies.ReturningGoesOn | core/Clash.Meta/config/utils.go:181-187 | a proxy that comes back to itself can be followed for ever |
| DialerProxies.ValidateDialerProxies | core/Clash.Meta/config/utils.go:148-176 | accepts exactly when every dialer exists and following dialers from any proxy ends; either error is justified |
| DialCycles.Validate | core/Clash.Meta/config/config.go:975-978 | on a built registry, the check accepts exactly existing dialers that end, and then dialling goes round exactly when some proxy can be reached from the group it dials through |
| DialCycles.AcceptedGoesRound | core/Clash.Meta/adapter/outbound/base.go:199 | the union of dialer references and group selections has a cycle, in an accepted configuration, exactly when a proxy can be reached from the group it dials through |
| DialCycles.NoGroupDialled | core/Clash.Meta/config/utils.go:148-176 | if no dialer names a group, an accepted configuration has none |
| DialCycles.DiallingEnds | core/Clash.Meta/adapter/outbound/base.go:206-218 | without one, every connection passes at most as many proxies and groups as there are names, whatever the groups select |
| DialCycles.SampleGoesRound | core/Clash.Meta/config/utils.go:148-176 | a proxy and the group it dials through and is held by: accepted, and dialling goes round |
| DialCycles.SampleIsBuilt | core/Clash.Meta/adapter/outboundgroup/parser.go:48-203 | that group is built by group construction |
| SubRules.AcceptedNeverReturns | core/Clash.Meta/config/config.go:1052-1079 | from an accepted rule set no chain of references leads back to it or to how it was reached |
| SubRules.RejectionJustified | core/Clash.Meta/config/config.go:1052-1079 | a rejection names a missing target, or a chain of references that runs into itself |
| SubRules.VerifySubRule | core/Clash.Meta/config/config.go:1042-1050 | accepts exactly when every SUB-RULE target exists and the references are acyclic, for every order of the map |
| Registry.Resolve | core/Clash.Meta/adapter/outboundgroup/parser.go:205-215 | every name resolved in order, or an unknown name of the list reported |
| Registry.GetProxies | core/Clash.Meta/adapter/outboundgroup/parser.go:205-215 | the loop computes that resolution and stops at the first unknown name |
| Registry.CheckUse | core/Clash.Meta/adapter/outboundgroup/parser.go:217-231 | accepted exactly when every name is a provider that belongs to no group |
| Registry.MemberNames | core/Clash.Meta/adapter/outboundgroup/parser.go:84-112 | include-all only adds configured proxies, and the fallback when nothing else is left |
| Members.MemberExactly | core/Clash.Meta/adapter/outboundgroup/parser.go:84-112 | a name is a member exactly when the group lists it, or it is included and there is no filter or some filter matches it, or the group is left empty and it is the fallback |
| Members.FilteredPairs | core/Clash.Meta/adapter/outboundgroup/parser.go:93-105 | the filtered proxies are one entry for each pair of a proxy and a filter matching it, proxy by proxy and filter by filter |
| Members.MembersInOrder | core/Clash.Meta/adapter/outboundgroup/parser.go:92-108 | the group's own list comes first, then all proxies, or those pairs |
| Members.MembersLeftEmpty | core/Clash.Meta/adapter/outboundgroup/parser.go:109-112 | a group left empty has its fallback as only member |
| Registry.AddGroup | core/Clash.Meta/adapter/outboundgroup/parser.go:48-203 | a group that is built adds exactly its own new name; a member not found is one the group listed |
| Members.BuiltExactly | core/Clash.Meta/adapter/outboundgroup/parser.go:48-203 | a group is built exactly when its type is one of the four, its name is new, its fallback, members and providers exist, no provider belongs to a group, and it has a member or a provider |
| Members.ErrorSays | core/Clash.Meta/adapter/outboundgroup/parser.go:65-231 | each error names something that is missing in just that way |
| Members.BuiltGroup | core/Clash.Meta/adapter/outboundgroup/parser.go:125-203 | a built group holds exactly what its member names stand for, its own list first, its fallback, and whether it uses providers; its members become a provider of its name; nothing else changes |
| Members.GroupsStand | core/Clash.Meta/config/config.go:938-951 | once all groups are built, each configured name stands for a group with exactly the members it asks for |
| Registry.SortedMembersAreFound | core/Clash.Meta/config/config.go:938-951 | in sorted order, a member that cannot be found is never a group |
| Registry.FallbackLookup | core/Clash.Meta/adapter/outboundgroup/parser.go:74-80 | a fallback lookup fails exactly when the name is neither a proxy nor a group built before |
| Registry.FallbackOutOfOrder | core/Clash.Meta/adapter/outboundgroup/parser.go:74-80 | a sorted configuration whose fallback names a later group and is rejected |
| Fallbacks.FallbacksPrecede | core/Clash.Meta/adapter/outboundgroup/parser.go:74-80 | in every sorted order each fallback that names a group names an earlier one, exactly when `proxies` references lead from each group to the group it falls back to |
| Fallbacks.FallbackMissing | core/Clash.Meta/config/config.go:938-951 | built in any sorted order, a fallback not found was no name before, and no group either when references lead to every group fallen back to |
| Registry.AddGroupsOffer | core/Clash.Meta/adapter/outboundgroup/parser.go:114-116 | every configured group that is built has members of its own or proxy providers |
| Registry.AddGroupsLayered | core/Clash.Meta/config/config.go:938-951 | each group's members and fallback existed before it |
| Registry.BuildLeaves | core/Clash.Meta/config/config.go:879-900 | the loop over proxies adds each under its name, or reports the first repeated one |
| Registry.BuildGroups | core/Clash.Meta/config/config.go:938-951 | the loop over groups adds each in turn, or stops at the first error |
| Registry.BuildRest | core/Clash.Meta/config/config.go:938-973 | the loop over the sorted groups, and GLOBAL unless a group has that name, make the parsed registry |
| Members.LeavesExactly | core/Clash.Meta/config/config.go:879-900 | proxies are added exactly if every name is new |
| Members.LeavesStand | core/Clash.Meta/config/config.go:879-900 | and each name then stands for a proxy of its type |
| Members.GlobalHolds | core/Clash.Meta/config/config.go:953-973 | unless a configured group is called GLOBAL, a group of that name holds, in order, DIRECT, REJECT, the configured proxies and the groups as configured, PASS ones left out, and falls back to COMPATIBLE |
| Members.ParsedStands | core/Clash.Meta/config/config.go:866-973 | in the finished registry a built-in or configured proxy is still of its type, one called GLOBAL excepted |
| Configuration.SourcesPermute | core/Clash.Meta/config/utils.go:71-76 | after the in-place sort each group still carries its own configuration, and no configuration is lost or repeated |
| Configuration.SortGroups | core/Clash.Meta/config/config.go:914-917 | the sort succeeds exactly for distinct names with acyclic references, and leaves a rearrangement of the groups in which each stands after those it lists |
| Configuration.ParseProxies | core/Clash.Meta/config/config.go:866-973 | end to end: a sorting error exactly for unsortable groups, else the registry built from a sorted rearrangement; a member not found is no group, no configured and no built-in proxy; a fallback not found is no proxy, and no group when references lead to every group fallen back to; every walk from any proxy is bounded by the groups including GLOBAL plus one |
| Registry.ParsedIsLayered | core/Clash.Meta/config/config.go:938-973 | a parsed registry has a GLOBAL and every group, GLOBAL included, only holds what was built before it |
| Registry.ParsedFindsMembers | core/Clash.Meta/config/config.go:938-951 | in sorted order, building never fails to find a member that is a group, a configured proxy or a built-in one |
| Registry.WalkIsShort | core/Clash.Meta/tunnel/tunnel.go:664-671 | a walk visits at most the groups built up to its start, and one adapter more |
| Registry.ParsedWalksEnd | core/Clash.Meta/tunnel/tunnel.go:664-671 | from any proxy, for every selection at every step, unwrapping visits at most the number of groups including GLOBAL, plus one |
| Registry.TrailIsWalk | core/Clash.Meta/tunnel/tunnel.go:664-671 | a trail follows the selections through what each group can select; only its last adapter may be of the wanted kind, and else it is a leaf |
| Registry.TrailFits | core/Clash.Meta/tunnel/tunnel.go:664-671 | whatever the selection state does between steps, the trail is no longer than the number of groups plus one |
| Registry.FindKind | core/Clash.Meta/tunnel/tunnel.go:378-389 | the loop ends, and says whether the wanted kind is met on the trail |
| Selection.Rank | core/Clash.Meta/adapter/outboundgroup/groupbase.go:154-165 | the first matching filter, or their number |
| Selection.OrderAscends | core/Clash.Meta/adapter/outboundgroup/groupbase.go:169-194 | the order of a pass ascends by first matching filter, then by position |
| Selection.AscendingUnique | core/Clash.Meta/adapter/outboundgroup/groupbase.go:169-194 | only one list with given members ascends so, hence the pass is the stable sort of the first proxy of each name |
| Selection.Order | core/Clash.Meta/adapter/outboundgroup/groupbase.go:154-194 | a pass takes exactly the first proxy of each name whose filter index is in range |
| Selection.Passes | core/Clash.Meta/adapter/outboundgroup/groupbase.go:169-194 | the loops over filters and proxies with their set of names compute that order, unmatched ones last |
| Selection.SecondPassIdle | core/Clash.Meta/adapter/outboundgroup/groupbase.go:169-194 | for one filtered provider the reordering that is skipped would change nothing |
| FilterOrder.OrderIsRanked | core/Clash.Meta/adapter/outboundgroup/groupbase.go:154-194 | a pass is, filter by filter, the first proxy of each name whose first matching filter that is, in order |
| FilterOrder.TwoPassesAreOne | core/Clash.Meta/adapter/outboundgroup/groupbase.go:140-194 | filtering each provider and reordering the whole gives what one reordering of all that the providers bring in would, less what no filter matches |
| FilterOrder.ComputeIsStableSort | core/Clash.Meta/adapter/outboundgroup/groupbase.go:140-224 | with several providers and filters the list is a stable sort by first matching filter with later proxies of a name removed, unmatched ones last and excluded ones taken out |
| Answers.ComputeIs | core/Clash.Meta/adapter/outboundgroup/groupbase.go:140-224 | whatever the filters and providers: without filters all contents, one after the other; with one filter or one provider, provider by provider all of a Compatible one and of others the first proxy of each name by first matching filter; else one such sort of all that is brought in; less the excluded |
| Answers.RankedPositions | core/Clash.Meta/adapter/outboundgroup/groupbase.go:154-194 | that sort takes first proxies of their name only, all those whose first matching filter counts, by that filter and then by position |
| Answers.UnfilteredAnswers | core/Clash.Meta/adapter/outboundgroup/groupbase.go:140-224 | without filters a proxy is answered exactly when some provider holds it and no exclusion hits it |
| Answers.FirstBroughtDecides | core/Clash.Meta/adapter/outboundgroup/groupbase.go:140-224 | with several providers and filters, a name is answered exactly when the first proxy of it that any provider brings in is not excluded |
| Answers.SomeProviderDecides | core/Clash.Meta/adapter/outboundgroup/groupbase.go:140-224 | with one filter or one provider, a name is answered exactly when some provider by itself offers it |
| Answers.HiddenByExcluded | core/Clash.Meta/adapter/outboundgroup/groupbase.go:196-224 | an excluded proxy hides a later one of its name that no exclusion hits |
| Selection.Exclude | core/Clash.Meta/adapter/outboundgroup/groupbase.go:196-224 | the exclusion loops, by name and by type, leave exactly the proxies no exclusion hits |
| Selection.Remaining | core/Clash.Meta/adapter/outboundgroup/groupbase.go:196-224 | what stays is in the list and not excluded, and everything such stays |
| GroupBase.BaseProvider.SetProxies | core/Clash.Meta/adapter/provider/provider.go:103-112 | content and version change together; every version names one content |
| GroupBase.GroupBase.Update | core/Clash.Meta/adapter/provider/provider.go:103-112 | an update leaves what a group has cached true of the versions it was computed from |
| GroupBase.GroupBase.GetProxies | core/Clash.Meta/adapter/outboundgroup/groupbase.go:122-235 | with no update in between, a cached or computed answer equals a full recomputation, or the empty fallback; it is remembered under the present versions, and with a provider never empty |
| Unwraps.AnswersUnwrap | core/Clash.Meta/adapter/outboundgroup/groupbase.go:122-235 | whatever a group answers, for any filters and contents, is a member, its fallback or something a used provider holds, which the walks allow it to select |
| Unwraps.UnwrapsAnswer | core/Clash.Meta/adapter/outboundgroup/groupbase.go:122-235 | and whatever the walks allow it to select is answered for some filters and contents |
| ProviderProtocol.RunKeepsInv | core/Clash.Meta/adapter/outboundgroup/groupbase.go:122-235 | the invariant of calls, cache and mutex holds in every interleaving |
| ProviderProtocol.NeverStale | core/Clash.Meta/adapter/outboundgroup/groupbase.go:122-138 | in every interleaving with updates, the list handed out, stored or computed, is what contents give that are at least as new as the versions the call read |
| ProviderProtocol.OneComputes | core/Clash.Meta/adapter/outboundgroup/groupbase.go:132-138 | at most one call computes at a time |
| ProviderProtocol.QuietCallIsCurrent | core/Clash.Meta/adapter/outboundgroup/groupbase.go:122-138 | with no update since it began, the list a call hands out, stored or computed, is the full recomputation, or the fallback if that is empty |
| ProviderProtocol.EmptyExactlyWithoutProviders | core/Clash.Meta/adapter/outboundgroup/groupbase.go:136-138 | in every interleaving, no call of a group with a provider hands out an empty list, a stored one included; every call of one without does |
| ProviderCalls.CallCompletes | core/Clash.Meta/adapter/outboundgroup/groupbase.go:122-235 | whenever the mutex is free, a call that then runs by itself ends, and hands out the full recomputation, which it leaves in the cache, or the fallback if that is empty |
| ProviderCalls.CurrentCacheHits | core/Clash.Meta/adapter/outboundgroup/groupbase.go:122-138 | if the cache was stored under the present versions, a call by itself hands out what is cached after one look at each version and one at the cache |
| MixedReads.PassGathers | core/Clash.Meta/adapter/outboundgroup/groupbase.go:154-165 | a filter pass in which each filter sees another content takes the first match of each name, filter by filter and by position, and nothing else |
| MixedReads.AnswerGathers | core/Clash.Meta/adapter/outboundgroup/groupbase.go:140-224 | what a call answers when contents change while it reads them |
| JumpHash.ProductScales | core/Clash.Meta/adapter/outboundgroup/loadbalance.go:81 | whatever the floating-point rounding, so long as it keeps order and the exact integers, the code's product stays between n and n times 2^31 |
| JumpHash.CandidateAdvances | core/Clash.Meta/adapter/outboundgroup/loadbalance.go:77-81 | hence candidates strictly increase and grow at most 2^31-fold |
| JumpHash.ComputeBucket | core/Clash.Meta/adapter/outboundgroup/loadbalance.go:74-84 | the loop ends, its 64-bit variable stays within 2^62, and the result is a bucket |
| JumpHash.BucketIsLastCandidate | core/Clash.Meta/adapter/outboundgroup/loadbalance.go:74-84 | the bucket is below the number of buckets and every later candidate of the key's series, which depends on the key alone, is not |
| JumpHash.KeysRoundTrip | core/Clash.Meta/adapter/outboundgroup/loadbalance.go:79 | the congruence is a permutation of the 64-bit keys, undone by the inverse multiplier |
| JumpHash.DrawSeries | core/Clash.Meta/adapter/outboundgroup/loadbalance.go:77-81 | the series starts at bucket 0, and each next bucket is drawn from the next key by its upper 31 bits |
| JumpHash.Consistent | core/Clash.Meta/adapter/outboundgroup/loadbalance.go:74-84 | adding buckets leaves a key where it was or moves it into a new bucket |
| JumpHash.ExactScales | core/Clash.Meta/adapter/outboundgroup/loadbalance.go:81 | exact arithmetic with a final floor is one such product, so the scalings assumed elsewhere exist |
| JumpHash.ConsistentHashing | core/Clash.Meta/adapter/outboundgroup/loadbalance.go:161-183 | the first alive of five tries, else the first alive of the list, else the first; alive whenever a member is |
| JumpHash.TriesWrap | core/Clash.Meta/adapter/outboundgroup/loadbalance.go:166 | the tries use the key and its successors, from 2^64 - 1 on to 0 |
| RoundRobin.Strategy.Choose | core/Clash.Meta/adapter/outboundgroup/loadbalance.go:132-159 | the next alive member from the index on, alive whenever one is; the index moves past it only on a touching call |
| RoundRobin.PickExactly | core/Clash.Meta/adapter/outboundgroup/loadbalance.go:132-159 | the first alive member met going round from the index, which moves on to the one after; with nobody alive the first member, and the index stays where it was |
| RoundRobin.PicksGoRound | core/Clash.Meta/adapter/outboundgroup/loadbalance.go:132-159 | touching calls return the alive members one after the other, as met going round |
| RoundRobin.RoundVisitsAll | core/Clash.Meta/adapter/outboundgroup/loadbalance.go:132-159 | as many touching calls as there are alive members return each exactly once in cyclic list order, from any index |
| RoundRobin.UntouchedCallsDoNotDisturb | core/Clash.Meta/adapter/outboundgroup/loadbalance.go:141-145 | calls that do not touch leave the rotation as it was |
| DotPool.PoolKeepsNewest | core/Clash.Meta/dns/dot.go:96-103 | however many connections are returned, the pool keeps the last eight in order and gives up the others oldest first |
| DotPool.TakesNewest | core/Clash.Meta/dns/dot.go:61-67 | the connection taken next is the one returned last |
| DotPool.RunKeepsInv | core/Clash.Meta/dns/dot.go:48-154 | the invariant of pool, exchanges and closes holds in every interleaving |
| DotPool.OnePlace | core/Clash.Meta/dns/dot.go:48-154 | every dialled connection is in exactly one of the pool, one exchange's hands, on its way to be closed, or closed; the pool never exceeds eight |
| DotPool.ClosedOnce | core/Clash.Meta/dns/dot.go:86-154 | no connection is closed twice |
| DotPool.HeldIsLive | core/Clash.Meta/dns/dot.go:61-94 | a connection in use is not pooled, not closed, and used by nobody else |
| DotPool.DialsAtMostOnce | core/Clash.Meta/dns/dot.go:69-94 | whatever the others do, an exchange attempts at most one dial, successful or not |
| DotPool.AloneFromTop | core/Clash.Meta/dns/dot.go:52-108 | with nobody else moving, an exchange tries at most pool size plus one connections |
| DotPool.AloneSucceeds | core/Clash.Meta/dns/dot.go:52-108 | unless cancelled, an uncontended exchange succeeds exactly when a pooled connection works or a new one can be dialled and works, and attempts a dial exactly when no pooled one works |
| DotPool.AloneIsRun | core/Clash.Meta/dns/dot.go:52-108 | from any state, background closes pending or not, the retry loop is a sequence of that exchange's own steps of the interleaved machine, with the same pool, closes, tries, dials and new connections |
| DotOutcomes.AloneEnds | core/Clash.Meta/dns/dot.go:52-108 | every way an uncontended exchange ends, with the pool and the closes it leaves: cancelled after some failures, a pooled connection that works and is put back, a dial that fails, a new connection that fails, or one that works and is pooled or closed |
| DotOutcomes.ResetCloses | core/Clash.Meta/dns/dot.go:145-154 | in every interleaving a reset and its background closes empty the pool and close just what was in it, behind what was waiting; without reuse it does nothing |
| DotClient.DnsOverTls.constructor | core/Clash.Meta/dns/dot.go:162-178 | a new client has an empty pool |
| DotClient.DnsOverTls.TakeOld | core/Clash.Meta/dns/dot.go:61-67 | the lock section is the machine's step on the deque |
| DotClient.DnsOverTls.GiveBack | core/Clash.Meta/dns/dot.go:96-107 | returns the connection, closing the oldest of a full pool; closes it when reuse is off |
| DotClient.DnsOverTls.ResetConnection | core/Clash.Meta/dns/dot.go:145-154 | empties the pool and closes exactly what was in it, once each |
| DotClient.DnsOverTls.Exchange | core/Clash.Meta/dns/dot.go:52-108 | the loop over the deque has the result, the pool and the closes of the uncontended exchange |
| PacketSender.RunKeepsInv | core/Clash.Meta/tunnel/connection.go:104-150 | the invariant of channel, senders and receivers holds in every interleaving |
| PacketSender.ReceivedInSendOrder | core/Clash.Meta/tunnel/connection.go:104-145 | packets are processed in the order they were sent into the channel, each at most once; at most 128 are queued |
| PacketSender.ReturnedSendsComeFirst | core/Clash.Meta/tunnel/connection.go:129-145 | if a Send returned before another began and both packets entered the channel, they did so in that order |
| PacketSender.DroppedOnce | core/Clash.Meta/tunnel/connection.go:65-150 | no packet is dropped twice, nor while it is queued, in hand or with its sender |
| PacketSender.NoneLost | core/Clash.Meta/tunnel/connection.go:129-145 | a packet whose Send returned is queued, in hand or dropped, and only one of these |
| SendOutcomes.EnteredOrRefused | core/Clash.Meta/tunnel/connection.go:129-145 | a packet whose Send returned either entered the channel or was given up at a step that found the sender closed or 128 packets queued, and never both |
| SendOutcomes.NothingRefused | core/Clash.Meta/tunnel/connection.go:129-145 | in every run without a Close and with at most 128 Sends, each packet whose Send returned entered the channel |
| SendOutcomes.SendAlone | core/Clash.Meta/tunnel/connection.go:129-145 | a Send by itself enqueues on an open sender with room, and drops on a closed or a full one |
| SendOutcomes.DropAllEmpties | core/Clash.Meta/tunnel/connection.go:118-127 | on a closed sender dropAll by itself empties the channel and drops what was in it, in order |
| SendOutcomes.ProcessEmpties | core/Clash.Meta/tunnel/connection.go:104-116 | Process by itself receives all that is queued, in order, and releases each packet once |
| NatMapping.FirstWins | core/Clash.Meta/tunnel/connection.go:42-54 | after any mappings, both tables answer with the first valid address recorded |
| NatMapping.FirstTargetAt | core/Clash.Meta/tunnel/connection.go:49-51 | that target is the one of the earliest mapping of the destination that had a valid one |
| NatMapping.FirstOriginAt | core/Clash.Meta/tunnel/connection.go:52-54 | that origin is the one of the earliest mapping to the address that had a valid one |
| NatMapping.RunRecords | core/Clash.Meta/tunnel/connection.go:42-102 | in every interleaving of packets and mappings the tables are those of the mappings added so far, the packets' own included |
| NatMapping.RepliesRestoreFirstOrigin | core/Clash.Meta/tunnel/connection.go:56-63 | in every interleaving, packets included, a reply is restored to the origin of the earliest mapping to its address that had a valid one, and left alone when there was none |
| NatMapping.ValidStays | core/Clash.Meta/tunnel/connection.go:49-54 | a valid entry of either table never changes |
| NatMapping.LaterPacketsAgree | core/Clash.Meta/tunnel/connection.go:65-102 | all later packets of a key go to one address, and a packet goes there too exactly when no valid mapping of its key landed between its two lock sections, or the first that did is to the same address |
| NatMapping.PacketGoes | core/Clash.Meta/tunnel/connection.go:65-102 | whatever mappings land between its lock sections, a packet goes to the valid target it found, else to the valid address its host resolves to or it has itself, which is recorded, else nowhere |
| NatMapping.SameDestinationSameAddress | core/Clash.Meta/tunnel/tunnel.go:480-495 | with every other mapping recorded before the Process loop starts, as the dialler does, all packets of a key go to one address, which the table keeps |
| NatMapping.Sender.AddMapping | core/Clash.Meta/tunnel/connection.go:42-54 | both tables after the call, overwriting only invalid records |
| NatMapping.Sender.RestoreReadFrom | core/Clash.Meta/tunnel/connection.go:56-63 | the recorded origin if it is valid, else the address itself |
| NatMapping.Sender.ReadTarget | core/Clash.Meta/tunnel/connection.go:71-73 | the read section finds what the table holds |
| NatMapping.Sender.Conclude | core/Clash.Meta/tunnel/connection.go:75-102 | where the packet goes: to what was found, tables unchanged; else to what its host resolves to, or its own address without a host, recorded if valid; nowhere and unrecorded if that is not valid or the resolution fails |
| NatMapping.Sender.ProcessPacket | core/Clash.Meta/tunnel/connection.go:65-102 | both sections with nothing in between: the valid target of the table, or that way of its own; a packet that is sent goes where the table then says |

## Left out

- The cache's `len` counter and `Len`: it is decremented twice for some ghosts (core/Clash.Meta/common/arc/arc.go:209, 218, 224), so it is no list length; the model uses list lengths.
- Capacity 0 of the cache: the first Set would take the back of an empty T1 (core/Clash.Meta/common/arc/arc.go:188); the model starts at 1. Negative and default capacities are the caller's business.
- The linked-list library under the cache: a list is a sequence of entries, an element is its position. Entries, their `ll` pointers and the map are objects updated in place.
- The deque's `Copy`, `CopyInSlice`, `IterPopFront`, `IterPopBack` and `shrinkToFit`, which can leave the tail outside the buffer (core/Clash.Meta/common/deque/deque.go:332, 392), and `Iter`, `RIter`, `Front`, `Back`, `Index`, `RIndex`, `AppendToSlice`, `CopyOutSlice`, which only read. Overflow of 64-bit sizes is not modelled; panics are preconditions.
- Deque.Deque.Rotate: one turn of the moving path is written as taking the value from one end and storing it at the other; the same two cells are written, in the other order.
- Graph nodes of the sort are values held in the map, replaced when the code updates a shared node; the only alias of a node in the code is the map. The loops over one group's list are methods of their own.
- Decoding of YAML maps, missing group names, expected-status ranges, intervals, test URLs, the load-balance strategy name, and the reserved provider name: they decide nothing that is modelled. Parsing a proxy or a proxy provider always succeeds.
- The sorting of the all-proxies and all-providers lists: they are arbitrary lists of configured names.
- Dialers of proxies that a proxy provider supplies (core/Clash.Meta/adapter/provider/override.go:56-58): they are not among the names the check looks at, and are not part of the registry.
- The adapters' own choice among their proxies (selected name, fastest, first alive): any member, the empty fallback, or anything a provider holds may be selected at every step of a walk.
- Regular expressions, type names and liveness are arbitrary predicates; a provider's version is unbounded; health checks, `Touch` and the fail counters are not modelled.
- Floating point in `jumpHash`: the rounding is any function that keeps order and leaves alone the integers up to 2^31 and their multiples by 2^31, which are exact in 64 bits. The sticky-sessions strategy is not modelled.
- Concurrency is interleaving, one step per lock section, channel operation or call that leaves the process; memory is sequentially consistent. One Process loop runs per sender.
- An eventual drop of every packet: a Send that straddles Close can enqueue after everything was dropped (core/Clash.Meta/tunnel/connection.go:129-150), so only at-most-once and no-loss are stated.
- A connection that fails its TLS handshake is closed inside the dial and never becomes a pooled one (core/Clash.Meta/dns/dot.go:119-143). The select that lets the caller leave before the exchange ends changes no state of the client.
- preHandleMetadata and name resolution: a packet carries the address and host they leave.
- Network I/O, transports, other outbound protocols, the rule matchers, the trie, the fake-IP pool, listeners, the Rust helper and the Flutter shells.
