# pxgo, modelled and proved in Dafny

pxgo is a local authenticating proxy. This project models the parts of it whose correctness no
single branch shows and proves what they promise:

- **Concurrent lifecycles.** Every critical section is one atomic step, and a run is any sequence
  of such steps by any number of callers: the DNS cache with its network generations
  (`DnsCache`, `DnsCacheRuns`), the bounded transport cache (`TransportCache`), the pool lock that
  the candidate loop hands to the 407 retry loop (`UpstreamAuth`), tunnel reservation and drain
  (`TunnelDrain`), the replay-body spool (`ReplaySpool`, `ReplayCapture`) and the ownership of
  routing objects (`RouteOwnership`).
- **Guardian and supervisor.** The control channel (`GuardianWire`), both select loops
  (`GuardianLoops`) and the two together (`GuardianProtocol`), whole parent runs (`GuardianRuns`)
  and the children in them (`GuardianLife`), the watchdog (`Watchdog`), passive
  health, network epochs and the fatal signal (`Supervision`, `SupervisionRuns`), and the
  reordering of candidates (`CandidateOrder`).
- **Configuration text.** What the reader sees in a text (`Ini`), the in-place patch of the routing
  keys (`IniPatch`), the schema upgrade (`SchemaUpgrade`) and the DNS rule block
  (`DnsPolicyText`).
- **Pure algorithms.** DER and SPNEGO (`Spnego`), the CNAME closure (`CnameClosure`) and release
  versions (`Versions`). `Text`, `Decimal`, `Sequences` and `Options` hold what these share.

Code that changes state is a class or a method with loops, proved equal to a function or a step
relation; the properties are then lemmas about all inputs and all runs of that function or
relation. What an operation gives is told once more without that function: from the pairs of a file
(`SettingsTold`, `RulesOfText`), the turns of a loop (`MonitorExplained`, `WorkerExplained`), the
answers of the network (`RoundTripWithFallback`) or the events of a run (`EntryLeavesIff`,
`HitsAreSound`, `RegisteredIff`). A run is given as `ss`, the states, and `es`, the events between them. Times are integers
(nanoseconds where constants matter), an unset Go time is `None`, text is a sequence of Unicode
characters, and pointers whose identity matters are numbers. What the network, the disk, the
clock, the resolver, the credential providers and other goroutines do is a parameter or an
arbitrary event.

Seven promises turn out to hold only under a condition, which is proved exact; where the failure is not
plain from the condition, a run or an input shows it:

- The DNS cache can grow past 4096 entries exactly when a new host is stored while all 4096 are
  unexpired and the empty host is among them and expires first or together with the first
  (`OverflowIff`, `StoreOverflowIff`), because the scan uses the empty text for "no victim yet"
  (`ScanFailsIff`). A run reaches 4097 (`EmptyHostBreaksTheBound`); as long as nobody looks up the
  empty host none does (`SizeBounded`).
- A schema upgrade keeps the effective settings exactly unless the file sets no `listen`, switches
  `gateway` or `hostonly` on somewhere and ends with both off (`UpgradePreservesSettings`,
  `UpgradeCanChangeListen`).
- The version comparison follows the precedence of SemVer exactly unless the first version is below
  the second and they first differ in two numeric identifiers of at least 2^64 - 1
  (`ComparesByPrecedence`, `AntisymmetricIff`, `HugeIdentifiersBreakTheOrder`), because the error of
  `ParseUint` is ignored.
- Two workers are alive together at some moment of a run exactly when a generation that ended in a
  restart killed a child, could not reap it within the timeout after, and a later child was started
  before that one exited (`TwoAliveIff`, `TwoWorkersRun`).
- A correlated network epoch can start less than 30 seconds after an earlier epoch exactly when the
  latest epoch before it carries an earlier clock reading than that one (`SpacingFailsIff`), because
  readings are taken before the lock and a tick can be handed over late (`StaleTickBreaksSpacing`).
- A list of DNS rules survives printing and reading exactly when it is well-formed
  (`RoundTripExactly`).
- Eviction from the transport cache takes the oldest entry exactly when the first live key of the
  order has no later copy behind the last copy of another live key (`EvictsOldestIff`); a removal
  leaves its key behind in the order, and a run shows that this matters (`EvictionNotFifo`). The
  cap holds all the same.

## Model

| member | source | states |
|---|---|---|
| `Ini.ReadPairs` | internal/config/config.go:1319-1350 | the scan loop of `ReadINI` collects exactly the pairs, and the malformed lines, that the text denotes |
| `Ini.ReadIsItemsOfSplit` | internal/config/config.go:1327-1343 | carriage returns and a missing last line break do not change what is read: the pairs are those of the pieces between line breaks |
| `Ini.ReadAfterLines` | internal/config/config.go:1327-1343 | what follows whole lines is read on its own: the pairs are those of the first part and then those of the second |
| `Ini.ReadWrittenLine` | internal/config/config.go:1332-1341 | a written `key = value` line reads back as the canonical key and the trimmed value |
| `Ini.KeySpelling` | internal/config/config.go:691-697 | a key name is read in any letter case and with white space around it, and `proxy` means `server` |
| `Ini.LineForms` | internal/config/config.go:1329-1341 | blank lines, comments and section headers say nothing, a text without an equals sign is an error, and else the first equals sign ends the key |
| `IniPatch.PatchPreservesMeaning` | internal/config/bootstrap.go:306-376 | for every text and line-break-free values: pairs of all other keys, and malformed lines, are unchanged and in order; each non-empty routing value is active exactly once, an empty one never |
| `IniPatch.PatchIdempotent` | internal/config/bootstrap.go:306-376 | patching a second time changes no character |
| `IniPatch.PatchKeepsLines` | internal/config/bootstrap.go:306-376 | up to one block of new lines each line keeps its place: unchanged if it sets no routing key, comments included, else the new setting of its key or a comment that holds its text |
| `IniPatch.ApplySystemProxy` | internal/config/bootstrap.go:258-294 | settings with a line break are refused; otherwise the reader sees an automatic configuration script in preference to a manual server, a system without either or one that decides for itself sets neither, `noproxy` is as the system says unless it decides for itself, all other pairs are as before, and applying the same settings again changes no character |
| `IniPatch.LineKeyIsReaderKey` | internal/config/bootstrap.go:313-330 | the rewriting pass sees a routing key on a line exactly where the reader does |
| `IniPatch.RewriteLine` | internal/config/bootstrap.go:313-339 | one turn of the rewriting loop keeps, rewrites or disables the line and updates section and seen keys as the specification says |
| `IniPatch.RewriteLines` | internal/config/bootstrap.go:306-339 | the rewriting loop over the lines in place equals the line-by-line specification |
| `IniPatch.FindInsertion` | internal/config/bootstrap.go:350-370 | the insertion point is the end of the first [proxy] section, if there is one |
| `IniPatch.FinishText` | internal/config/bootstrap.go:340-376 | missing settings go to the end of the [proxy] section, or into a new section at the end |
| `IniPatch.PatchKeys` | internal/config/bootstrap.go:306-376 | the whole of `patchINIKeys` computes the specified text |
| `SchemaUpgrade.UpgradeAppendsDefaults` | internal/config/bootstrap.go:135-180 | the pairs read from the upgraded text are the old pairs in order, then each absent key at its default |
| `SchemaUpgrade.UpgradeAddsSettings` | internal/config/bootstrap.go:135-180 | the six settings an upgrade may add, in order and with their values: each exactly when the file has no pair for its key |
| `SchemaUpgrade.UpgradeKeepsText` | internal/config/bootstrap.go:135-152 | the upgraded text is the header line, the old text unchanged, and a block behind it |
| `SchemaUpgrade.UpgradedSchema` | internal/config/bootstrap.go:145-147 | the upgraded text has schema 1 |
| `SchemaUpgrade.FindSchema` | internal/config/bootstrap.go:393-406 | the loop of `configSchema` returns the first readable marker, or zero |
| `SchemaUpgrade.SchemaTold` | internal/config/bootstrap.go:393-406 | the schema is zero without an announcing comment, and the number in the first one |
| `SchemaUpgrade.EnsureCanonicalIdempotent` | internal/config/bootstrap.go:109-124 | the result always has schema at least 1, a second call is a no-op, and a file changes exactly when its schema is below 1 |
| `SchemaUpgrade.AppliedFields` | internal/config/config.go:706-720 | after the pairs of a file absent keys are at their defaults, the two switches are as their last pair says, and a listen address without a pair of its own is blank exactly when one of them was ever switched on |
| `SchemaUpgrade.SettingsTold` | internal/config/config.go:706-965 | for every text: it can be read exactly if each pair has a value its key takes, and then each setting is what the last pair for its key says, or its default; with gateway or hostonly on there is no listen address, and hostonly alone clears the allow list |
| `SchemaUpgrade.UpgradePreservesSettings` | internal/config/bootstrap.go:135-180 | a file is readable after the upgrade exactly if it was before, and its effective settings are equal exactly unless it sets no listen, switches gateway or hostonly on and ends with both off; then only listen changes, to its default |
| `SchemaUpgrade.UpgradeCanChangeListen` | internal/config/config.go:958-965 | a two-line file on which the upgrade does change the effective listen address |
| `SchemaUpgrade.CollectActiveKeys` | internal/config/bootstrap.go:378-391 | the loop of `activeINIKeys` collects exactly the keys that the reader would apply |
| `DnsPolicyText.PrintThenLoad` | internal/config/config.go:1257-1272 | for every non-empty list of well-formed rules, printing and reading returns the same rules in the same order, and the last resolver |
| `DnsPolicyText.PrintThenLoadInFile` | internal/config/config.go:1257-1343 | the same for the text of a whole file: the block between whole lines that say nothing about DNS |
| `DnsPolicyText.LoadedRulesWF` | internal/config/config.go:722-765 | whatever text is read, the rules that come out are well-formed |
| `DnsPolicyText.RulesOfText` | internal/config/config.go:722-765 | for every text: it is refused exactly if a pair has no equals sign, names an invalid resolver, lists an invalid pattern or lists patterns before any resolver; otherwise each resolver after the last blank one opens a rule with all patterns listed up to the next, over any number of lines |
| `DnsPolicyText.PatternForms` | internal/dnsresolver/resolver.go:132-147 | a pattern is accepted in any letter case if it holds no slash or colon and a star only alone or in front of a dot; white space around it and one final dot do not matter |
| `DnsPolicyText.RoundTripExactly` | internal/config/config.go:1257-1272 | a non-empty list of rules survives printing and reading if and only if it is well-formed |
| `DnsPolicyText.EmptyRoundTrip` | internal/config/config.go:1257-1260 | without rules the printed line of an accepted resolver reads back to no rules exactly when the resolver is blank |
| `DnsPolicyText.SplitPrinted` | internal/config/config.go:757-765 | splitting a printed pattern list gives the patterns back |
| `DnsPolicyText.CollectPatterns` | internal/config/config.go:757-765 | the loop of `splitDNSPatterns` computes the trimmed non-empty pieces |
| `DnsPolicyText.PrintBlock` | internal/config/config.go:1257-1272 | the loop of `dnsINIBlock` prints the lines of all rules in order |
| `DnsPolicyText.PrintRule` | internal/config/config.go:1262-1271 | one rule is printed as a resolver line and a line for each non-empty pattern list |
| `Versions.NormalizeStable` | internal/update/update.go:182-218 | a normalized version normalizes to itself |
| `Versions.ShowParses` | internal/update/update.go:182-261 | every version reads back from its text major.minor.patch-identifiers, with or without a leading v, build metadata and white space around it |
| `Versions.ParsesShown` | internal/update/update.go:182-261 | every accepted text, normalized, is the text of the version it denotes |
| `Versions.ZeroIffEqual` | internal/update/update.go:263-322 | two accepted versions compare as 0 exactly when their normalized texts are equal |
| `Versions.ComparesByPrecedence` | internal/update/update.go:263-322 | the comparison of any two versions has the sign of their precedence in section 11 of SemVer 2.0.0 (numbers by value, a prerelease below its release, a number below a word, words by code points, a proper beginning first), exactly unless the first is below the second and they first differ in two saturated numeric identifiers |
| `Versions.AntisymmetricIff` | internal/update/update.go:290-314 | swapping the arguments flips the sign exactly when the versions do not first differ in two saturated numeric identifiers |
| `Versions.CompareTransitive` | internal/update/update.go:263-322 | the comparison is transitive on all accepted versions |
| `Versions.CompareTotalOrder` | internal/update/update.go:263-322 | any two versions that do not first differ in two saturated numeric identifiers compare one way or the other, and as 0 only when their normalized texts are equal (section 11 of SemVer 2.0.0) |
| `Versions.FittingVersionsDoNotClash` | internal/update/update.go:290-314 | versions whose numeric identifiers fit in 64 bits never differ in such a way, so on them the comparison is a total order |
| `Versions.HugeIdentifiersBreakTheOrder` | internal/update/update.go:298-299 | any two different prereleases 1.0.0-m and 1.0.0-n with m and n at least 2^64 - 1 do not order |
| `Versions.CompareVersions` | internal/update/update.go:263-322 | the comparison loops give 0 when a side is not a version, and the sign of SemVer precedence for any two that do not clash |
| `Versions.CompareIdentLists` | internal/update/update.go:286-321 | the prerelease loop with its early returns computes the specified sign |
| `Versions.BetterThan` | internal/update/update.go:124-137 | a candidate replaces the best so far exactly when it is eligible and larger |
| `Versions.SelectRelease` | internal/update/update.go:120-142 | the prerelease channel selects nothing exactly when no release is eligible (no draft, accepted tag); otherwise an eligible one, which is the first maximum of all of them if and only if there is a maximum, and there is one unless two eligible releases clash in saturated identifiers; without such a clash every other eligible release precedes the one selected, or equals it and comes later in the list |
| `CnameClosure.Closure` | internal/dnsresolver/resolver.go:743-760 | the fixpoint loop ends for every answer section, cycles included, with exactly the names reachable from the query (section 3.6.2 of RFC 1034) |
| `CnameClosure.ReadRecords` | internal/dnsresolver/resolver.go:761-796 | the second loop returns the matching INET addresses of allowed names in answer order and the least bounding TTL |
| `CnameClosure.ReadAnswers` | internal/dnsresolver/resolver.go:743-801 | together: exactly the matching addresses owned by reachable names, with the minimum TTL over them and the followed INET aliases, or the no-address error |
| `CnameClosure.AddressesPermuted` | internal/dnsresolver/resolver.go:761-796 | permuting the records permutes the addresses |
| `CnameClosure.AddressesGiven` | internal/dnsresolver/resolver.go:761-793 | an address is returned exactly if an A record (for a query of type A) or an AAAA record (for AAAA) of class INET and an allowed name holds it |
| `CnameClosure.TtlIsLeast` | internal/dnsresolver/resolver.go:764-796 | the time to live is that of a counting record, an alias or a matching address, and at most that of any |
| `CnameClosure.OrderDoesNotMatter` | internal/dnsresolver/resolver.go:743-801 | two answer sections with the same records in any order are answered alike: the same names, the no-address error for both or none, the same addresses as a multiset and the same TTL |
| `CnameClosure.CaseDoesNotMatter` | internal/dnsresolver/resolver.go:743-809 | two answer sections and queries that differ only in letter case give the same names, the same addresses in the same order and the same TTL |
| `Spnego.ReadWritten` | internal/proxy/auth_client.go:388-439 | reading a written triple with anything behind it returns tag, content and rest (section 8.1.3 of X.690) |
| `Spnego.AcceptedSplits` | internal/proxy/auth_client.go:388-412 | every accepted triple splits its input into header, content and rest without loss, and exactly the shortest length forms re-encode to the input |
| `Spnego.ConstantParts` | internal/proxy/auth_client.go:374-386 | the constant object identifiers and fields are what the encoder writes for them |
| `Spnego.SpnegoArcs` | internal/proxy/auth_client.go:329 | the identifier of SPNEGO is 1.3.6.1.5.5.2 (section 8.19 of X.690) |
| `Spnego.NtlmArcs` | internal/proxy/auth_client.go:330 | the identifier of NTLM is 1.3.6.1.4.1.311.2.2.10 |
| `Spnego.InitRoundTrip` | internal/proxy/auth_client.go:333-379 | unwrapping a wrapped initial token returns the original message exactly when it is an NTLM message and the encoding is within 16 KiB (section 4.2.1 of RFC 4178) |
| `Spnego.RespRoundTrip` | internal/proxy/auth_client.go:333-386 | the same for a response token (section 4.2.2 of RFC 4178) |
| `Spnego.InitHolds` | internal/proxy/auth_client.go:374-379 | an initial token, decoded element by element, holds the SPNEGO identifier, a mechanism list of NTLM alone and the message (section 4.2.1 of RFC 4178) |
| `Spnego.RespHolds` | internal/proxy/auth_client.go:381-386 | a response token, decoded, holds the state accept-incomplete, the mechanism NTLM and the message, in this order (section 4.2.2 of RFC 4178) |
| `Spnego.FirstTokenDecides` | internal/proxy/auth_client.go:355-372 | whatever elements stand before it and whatever bytes behind, the first token field decides; without one there is no message |
| `Spnego.RawMessage` | internal/proxy/auth_client.go:324-336 | an NTLM message is returned as it is |
| `Spnego.UnwrapWithin` | internal/proxy/auth_client.go:333-372 | whatever is unwrapped is an NTLM message and a contiguous piece of the input |
| `Spnego.EncodeLength` | internal/proxy/auth_client.go:422-439 | the buffer loop of `derLength` writes the specified length bytes |
| `Spnego.DecodeTlv` | internal/proxy/auth_client.go:388-412 | the loop of `readDERTLV` decodes as specified, error cases included |
| `Spnego.FindToken` | internal/proxy/auth_client.go:355-372 | the element loop finds the specified token |
| `CandidateOrder.ArrangeMeaning` | internal/supervisor/upstream.go:94-138 | for any list and standing: a permutation, DIRECT in its slots, the other slots healthy before cooled and each in list order |
| `CandidateOrder.ArrangeCooledLast` | internal/supervisor/upstream.go:94-138 | told by place: a permutation, DIRECT in its slots, no proxy behind one in cooldown unless it cools too, and both kinds in list order |
| `CandidateOrder.ArrangeUnchanged` | internal/supervisor/upstream.go:123-125 | with no cooled or no healthy candidate the list stays as it is |
| `CandidateOrder.ArrangeMapped` | internal/proxy/supervisor_runtime.go:100-108 | arranging the candidates made from servers is making candidates from the arranged servers |
| `CandidateOrder.ArrangeWithKey` | internal/proxy/supervisor_runtime.go:108-119 | servers that share a key keep their order |
| `CandidateOrder.DirectKeyUnique` | internal/proxy/supervisor_runtime.go:81-86 | no proxy has the key of DIRECT |
| `CandidateOrder.OrderedKeys` | internal/proxy/supervisor_runtime.go:100-119 | the keys the supervisor returns are those of the arranged servers, with the same servers per key |
| `CandidateOrder.GroupByKey` | internal/proxy/supervisor_runtime.go:100-106 | the grouping loop holds, for every key, its servers in list order |
| `CandidateOrder.TakeByKey` | internal/proxy/supervisor_runtime.go:108-120 | the lookup loop returns the wanted list; a key without a server, and so the defensive fallback, is unreachable |
| `Supervision.OrderProxyCandidates` | internal/proxy/supervisor_runtime.go:95-121 | with any health state and any list, shared keys included, the result is the stable arrangement of the authoritative servers; without a supervisor the list itself; no server stands behind one in cooldown unless it is in cooldown too |
| `Supervision.CooldownValues` | internal/supervisor/upstream.go:20-29 | cooldowns are 2, 4, 8, 16 and 30 seconds |
| `Supervision.FailedOk` | internal/supervisor/upstream.go:43-62 | one more failure keeps level and cooldown in step with the failure count |
| `Supervision.StepKeeps` | internal/supervisor/supervisor.go:113-213 | every step keeps at most 256 well-formed entries and one fatal signal per request for it |
| `Supervision.Supervisor.constructor` | internal/supervisor/supervisor.go:59-73 | a new supervisor starts in the initial state |
| `Supervision.Supervisor.EvictOldest` | internal/supervisor/upstream.go:64-80 | the scan deletes one entry with the least sequence number, whatever the map order |
| `Supervision.Supervisor.RecordLocalFailure` | internal/supervisor/upstream.go:31-62 | the new state is the specified one; cooldown is entered exactly on the second failure |
| `Supervision.Supervisor.StartNetworkEpoch` | internal/supervisor/supervisor.go:181-186 | a new epoch clears health and window |
| `Supervision.Supervisor.ObserveCorrelatedFailure` | internal/supervisor/supervisor.go:153-175 | the window update, and whether an epoch starts, are as specified |
| `Supervision.Supervisor.RecordInternalFailure` | internal/supervisor/supervisor.go:136-151 | the internal window and the fatal channel change as specified |
| `Supervision.Supervisor.Record` | internal/supervisor/supervisor.go:113-134 | one step of a run; idle transports are to be closed exactly on the failure that starts a cooldown |
| `Supervision.Supervisor.Tick` | internal/supervisor/supervisor.go:190-213 | one step of a run, reporting whether it started an epoch |
| `Supervision.Supervisor.Close` | internal/supervisor/supervisor.go:75-84 | closing is one step; later outcomes are ignored |
| `Supervision.Supervisor.Reset` | internal/supervisor/upstream.go:141-146 | transient health and window are cleared, nothing else |
| `Supervision.Supervisor.CandidateCooled` | internal/supervisor/upstream.go:82-92 | answers from the entry and deletes exactly an expired one |
| `Supervision.Supervisor.Partition` | internal/supervisor/upstream.go:107-122 | splits the explicit candidates into healthy and cooled, in list order |
| `Supervision.Supervisor.Order` | internal/supervisor/upstream.go:97-138 | the stable arrangement by the cooldowns of the moment, and one step of a run: no candidate stands behind one whose entry says that it cools unless its own says so too |
| `Supervision.FillSlotsInOrder` | internal/supervisor/upstream.go:127-137 | the last loop leaves DIRECT slots alone and fills the others in order |
| `SupervisionRuns.RunInv` | internal/supervisor/supervisor.go:113-213 | in every run: at most 256 entries, `backoffLevel == min(5, failures - 1)`, cooling exactly from two failures on, one fatal signal exactly when requested |
| `SupervisionRuns.EntryHistory` | internal/supervisor/upstream.go:31-62 | every entry counts exactly the failures of its key since it began, and began when there was no entry or an expired one |
| `SupervisionRuns.CoolsAfterTwoFailures` | internal/supervisor/upstream.go:31-62 | a candidate cools exactly with two failures or more and for at most 30 seconds after the last of them |
| `SupervisionRuns.EvictsLeastRecentlyFailing` | internal/supervisor/upstream.go:64-80 | a new key in a full table costs exactly the entry that failed least recently |
| `SupervisionRuns.EntryLeavesIff` | internal/supervisor/upstream.go:31-92 | for every event of every run: an entry goes if and only if the event is a success of its own, a lookup among several candidates that finds it expired, a reset or an epoch, or a failure of a new key in a full table of which it is the least recently failing entry |
| `SupervisionRuns.EntryAppearsIff` | internal/supervisor/upstream.go:31-61 | a candidate gets an entry exactly by a proxy failure of its own that starts no epoch |
| `SupervisionRuns.IgnoresWhatSaysNothing` | internal/supervisor/supervisor.go:113-135 | cancelled requests, destination and route failures, exhausted authentication and outcomes without a proxy change nothing, and neither does any outcome or tick from the first close on |
| `SupervisionRuns.WindowHolds` | internal/supervisor/supervisor.go:153-175 | at every moment of every run the correlation window holds exactly the failures counted since its opener |
| `SupervisionRuns.OpenerMeans` | internal/supervisor/supervisor.go:160-164 | all failures of a window are read at most three seconds later than its opener, and nothing reset it since |
| `SupervisionRuns.CorrelatedEpochIff` | internal/supervisor/supervisor.go:153-175 | a reported outcome starts an epoch exactly when it is a counted failure that brings its window to 8 failures on 2 proxies |
| `SupervisionRuns.CorrelatedEpochNeeds` | internal/supervisor/supervisor.go:153-175 | so a correlated epoch needs at least 8 counted failures on at least 2 proxies, none read more than 3 seconds later than the first; in one window of 3 seconds when readings arrive in order |
| `SupervisionRuns.EpochsSpaced` | internal/supervisor/supervisor.go:157-159 | a correlated epoch starts at least 30 seconds after the latest epoch before it, and after every earlier one that was read no later than that |
| `SupervisionRuns.SpacingFailsIff` | internal/supervisor/supervisor.go:113-213 | for every run of a supervisor that is not closed: it can go on to a correlated epoch, the first after it, less than 30 seconds after an earlier epoch if and only if the latest epoch was read before that one |
| `SupervisionRuns.StaleTickBreaksSpacing` | internal/supervisor/supervisor.go:113-213 | a run with its ticks in order, one of them handed over late, has two correlated epochs 28 seconds apart |
| `SupervisionRuns.TickEpochIff` | internal/supervisor/supervisor.go:190-213 | a tick starts an epoch exactly when it comes more than 5 seconds after the tick before it |
| `SupervisionRuns.FatalNeedsThree` | internal/supervisor/supervisor.go:136-151 | the fatal signal is requested exactly by an internal failure that is at least the third since the opener of its window, told from the events alone; over a whole run at most one signal exists |
| `SupervisionRuns.InternalOpenerMeans` | internal/supervisor/supervisor.go:137-140 | all internal failures of a window are read at most 30 seconds later than its opener |
| `TransportCache.EvictFinds` | internal/proxy/transport_cache.go:87-99 | with every live key in `order`, the eviction loop takes the live entry whose key stands first |
| `TransportCache.CommitOk` | internal/proxy/transport_cache.go:79-103 | a commit keeps the cap and every live key in `order`, although `order` may hold stale keys |
| `TransportCache.RunInv` | internal/proxy/transport_cache.go:39-154 | in every interleaving live entries stay within the cap, no cached entry is closed, and every entry built is held by its builder, live, about to be closed, or closed, exactly one of these |
| `TransportCache.OnePlace` | internal/proxy/transport_cache.go:39-154 | no cached entry is closed, and once builders and removers are done every entry built is live or closed |
| `TransportCache.LeavesOnlyBy` | internal/proxy/transport_cache.go:69-154 | an entry leaves if and only if a removal names it or nothing, the cache is cleared, or a new key comes into a full cache in which its key is the live one that stands first in `order`; then it is about to be closed |
| `TransportCache.CommitGives` | internal/proxy/transport_cache.go:79-109 | after a commit the key is in the cache, with the entry it had, and the loser is about to be closed, or else with the new entry |
| `TransportCache.ClosedOnce` | internal/proxy/transport_cache.go:25-37 | no entry is closed twice |
| `TransportCache.StaleOwnerRemovesNothing` | internal/proxy/transport_cache.go:111-127 | an owner whose entry has left the cache removes nothing, whatever entry has its key now |
| `TransportCache.InsertedLast` | internal/proxy/transport_cache.go:100-102 | a live entry is the one last inserted under its key |
| `TransportCache.PlacesFollowInsertions` | internal/proxy/transport_cache.go:79-127 | in every run the last copies of live keys stand in `order` as their entries were inserted |
| `TransportCache.EvictsOldestIff` | internal/proxy/transport_cache.go:87-99 | every evicting commit of every run takes the entry inserted first among the live ones if and only if the first live key in `order` has no copy behind the last copy of another live key |
| `TransportCache.EvictionNotFifo` | internal/proxy/transport_cache.go:87-127 | for any three keys there is a run with an eviction that does not take the oldest entry |
| `TransportCache.TransportCache.constructor` | internal/proxy/transport_cache.go:46-54 | the cap is at least one and the cache empty |
| `TransportCache.TransportCache.Get` | internal/proxy/transport_cache.go:56-64 | the live entry of the key, if any |
| `TransportCache.TransportCache.EvictOne` | internal/proxy/transport_cache.go:87-99 | the eviction loop computes the specified cache and victim |
| `TransportCache.TransportCache.CommitCandidate` | internal/proxy/transport_cache.go:79-109 | the section after the factory: the winner of the key is returned, and the loser or the evicted entry handed over for closing |
| `TransportCache.TransportCache.RemoveEntry` | internal/proxy/transport_cache.go:111-127 | removes only the expected entry, and hands it over for closing |
| `TransportCache.TransportCache.Clear` | internal/proxy/transport_cache.go:138-154 | empties the cache and hands over exactly the entries that were in it |
| `DnsCache.LifetimeBounds` | internal/dnscache/dnscache.go:125-141 | an answer is cached for 5 seconds if it is an error, for a minute without a TTL resolver, and else for the TTL, but at least a second and at most an hour; it is what the resolver said, addresses or error |
| `DnsCache.ScanFindsEarliest` | internal/dnscache/dnscache.go:185-192 | a scan without the empty host finds the entry that expires first, whatever the map order |
| `DnsCache.ScanFailsIff` | internal/dnscache/dnscache.go:185-195 | a scan reports no victim exactly when it scans nothing, or meets the empty host last and that expires no later than all others |
| `DnsCache.EvictsEarliest` | internal/dnscache/dnscache.go:178-198 | without the empty host eviction leaves exactly 4095 entries of a full table, and everything deleted expires before everything kept |
| `DnsCache.StoreOverflowIff` | internal/dnscache/dnscache.go:144-198 | storing an entry in a table within the bound can take it to more than 4096 entries if and only if its 4096 entries are all unexpired, the host is new, and the empty host is among them and expires no later than any other |
| `DnsCache.DnsCache.constructor` | internal/dnscache/dnscache.go:52-69 | a new cache is empty, at generation zero |
| `DnsCache.DnsCache.Peek` | internal/dnscache/dnscache.go:92-100 | the answer under the read lock is one of an unexpired entry |
| `DnsCache.DnsCache.Begin` | internal/dnscache/dnscache.go:102-121 | one step: hit, join or start |
| `DnsCache.DnsCache.DeleteExpired` | internal/dnscache/dnscache.go:179-183 | deletes exactly the expired entries |
| `DnsCache.DnsCache.ScanVictim` | internal/dnscache/dnscache.go:185-192 | the scan loop computes the specified victim for some order of the map |
| `DnsCache.DnsCache.EvictLocked` | internal/dnscache/dnscache.go:178-198 | the two loops compute an eviction as specified |
| `DnsCache.DnsCache.Settle` | internal/dnscache/dnscache.go:123-138 | the answer holds the resolver's addresses, or its error and none, and its lifetime is the one above |
| `DnsCache.DnsCache.Store` | internal/dnscache/dnscache.go:144-153 | room is made only in a full table, then the entry is stored |
| `DnsCache.DnsCache.Complete` | internal/dnscache/dnscache.go:123-163 | one step: the call gets its result, and the entry is stored only if it is cacheable and of the current generation |
| `DnsCache.DnsCache.ClearNetworkState` | internal/dnscache/dnscache.go:202-211 | one step: next generation, nothing cached, nothing in flight |
| `DnsCacheRuns.RunInv` | internal/dnscache/dnscache.go:102-163 | in every interleaving at most one unfinished call per host and generation, and the calls in flight are exactly the unfinished ones of this generation |
| `DnsCacheRuns.EntryOrigin` | internal/dnscache/dnscache.go:143-153 | every cached entry is what a call for that host returned which began after the last clear |
| `DnsCacheRuns.HitsAreSound` | internal/dnscache/dnscache.go:92-108 | every hit is exactly the addresses or the error of such a call, and comes before the lifetime of that answer, 5 seconds, a minute or the TTL within 1 second and 1 hour, is over |
| `DnsCacheRuns.AnswersAreReused` | internal/dnscache/dnscache.go:92-108 | within the lifetime of a cached answer every lookup is served that answer, unless the cache was cleared, the host completed anew or a full table was met in between |
| `DnsCacheRuns.CompletesOnce` | internal/dnscache/dnscache.go:154-160 | no call completes twice |
| `DnsCacheRuns.JoinersGetTheirCall` | internal/dnscache/dnscache.go:109-118 | a joined caller joined an unfinished call for its host begun after the last clear, and gets exactly the addresses or the error that the resolver gave that call |
| `DnsCacheRuns.StarterGetsItsCall` | internal/dnscache/dnscache.go:122-163 | the caller that started a call gets what the resolver gave it |
| `DnsCacheRuns.LookupsCoalesce` | internal/dnscache/dnscache.go:109-121 | a lookup that is no hit joins a call if and only if that is for its host, began after the last clear and has not completed; it starts one only if there is none |
| `DnsCacheRuns.SizeBounded` | internal/dnscache/dnscache.go:143-153 | as long as nobody asks for the empty host the cache never exceeds 4096 entries |
| `DnsCacheRuns.OverflowIff` | internal/dnscache/dnscache.go:143-198 | a run within the bound can go on past it if and only if the next event is a cacheable completion of the current generation that meets this condition |
| `DnsCacheRuns.EmptyHostBreaksTheBound` | internal/dnscache/dnscache.go:188-195 | with the empty host some run ends with 4097 entries |
| `TunnelDrain.Tunnels.constructor` | internal/proxy/proxy.go:207-208 | no tunnels, and a closed zero channel |
| `TunnelDrain.Tunnels.ReserveTunnel` | internal/proxy/tunnel.go:37-48 | refused during shutdown; the first reservation makes a new zero channel |
| `TunnelDrain.Tunnels.SignalZero` | internal/proxy/tunnel.go:100-109 | closes the zero channel when nothing is left, never a closed one |
| `TunnelDrain.Tunnels.CancelReservation` | internal/proxy/tunnel.go:50-57 | one reservation less, and the signal |
| `TunnelDrain.Tunnels.ActivateTunnel` | internal/proxy/tunnel.go:63-80 | a reservation becomes a tunnel, or is given up during shutdown |
| `TunnelDrain.Tunnels.FinishTunnel` | internal/proxy/tunnel.go:82-93 | a registered tunnel is removed once |
| `TunnelDrain.Tunnels.BeginShutdown` | internal/proxy/tunnel.go:111-119 | the channel to wait for and the tunnels to close are those of the moment |
| `TunnelDrain.RunInv` | internal/proxy/tunnel.go:37-124 | in every interleaving the zero channel is closed exactly when there are no reservations and no tunnels, `active` is the number of tunnels, and reservations are those of the clients |
| `TunnelDrain.DrainIsFinal` | internal/proxy/tunnel.go:111-137 | once the channel shutdown returned is closed, no tunnel and no reservation exists or ever will |
| `TunnelDrain.DrainComes` | internal/proxy/tunnel.go:100-109 | that channel is closed exactly when all clients have settled and all tunnels are finished |
| `TunnelDrain.ShutdownClosesAll` | internal/proxy/tunnel.go:111-124 | once shutdown has returned its channel, at every later moment every tunnel ever activated has been closed and none has been activated since |
| `TunnelDrain.ReservedIff` | internal/proxy/tunnel.go:37-80 | a client holds a reservation exactly from reserving before shutdown until it cancels or activates: none is refused before shutdown and none granted after |
| `TunnelDrain.RegisteredIff` | internal/proxy/tunnel.go:63-93 | a tunnel is registered exactly from its activation before shutdown until it is finished |
| `ReplaySpool.StepOk` | internal/proxy/body.go:113-286 | one step of one capture or body keeps what was read, reserves before it writes, and changes the budget by what it owes |
| `ReplaySpool.SpoolConserved` | internal/proxy/body.go:53-73 | in every interleaving the bytes of all spool files are within `used`, which is within the maximum and exactly what captures, open bodies and undeletable files hold |
| `ReplaySpool.BodiesAreExact` | internal/proxy/body.go:304-325 | every captured body reopens to exactly the chunks read, and is in a file exactly when larger than the memory limit |
| `ReplaySpool.FailsIff` | internal/proxy/body.go:113-286 | a capture fails at a step exactly if it is given up, the body or the budget is too small, or the file cannot be made, written or closed; otherwise it goes on with what it has read |
| `ReplaySpool.ReleasesOnce` | internal/proxy/body.go:336-374 | no reservation is released twice, and what has released has no file |
| `ReplayCapture.Budget.constructor` | internal/proxy/body.go:46-51 | a negative maximum counts as zero |
| `ReplayCapture.Budget.Reserve` | internal/proxy/body.go:53-66 | the compare-and-swap loop takes all or nothing and never passes the maximum; whatever others do between load and swap, it fails exactly if at its last load the amount does not fit, and ends at the first load that is not disturbed |
| `ReplayCapture.Budget.Release` | internal/proxy/body.go:68-73 | gives back exactly the amount, and nothing for none |
| `ReplayCapture.WriteAll` | internal/proxy/body.go:288-302 | all of the data is written, or a prefix and an error; never an error when the writer makes progress without one |
| `ReplayCapture.Cleanup` | internal/proxy/body.go:154-176 | the reservation goes back unless the file cannot be removed |
| `ReplayCapture.WriteChunk` | internal/proxy/body.go:178-218 | on success everything read is in memory up to the limit, else in the file, reserved byte for byte |
| `ReplayCapture.ReadAll` | internal/proxy/body.go:220-249 | the read loop keeps everything read in memory or file, succeeds on every source that must succeed, and on every error gives back what it reserved unless its file stays |
| `ReplayCapture.TurnIntoBody` | internal/proxy/body.go:251-286 | a file that cannot be closed is given up, its reservation kept only if it cannot be removed |
| `ReplayCapture.Capture` | internal/proxy/body.go:113-286 | bad limits and a declared length over the limit fail at once and no source is an empty body; otherwise a captured body is exactly the bytes up to the end of the reader, spooled exactly when they exceed the memory limit; a readable source that fits in memory is always captured, and one within the limit when the disk works and the budget has room; the budget is charged exactly what the result holds |
| `ReplayCapture.ReplayableBody.constructor` | internal/proxy/body.go:272-285 | a body holds what was captured |
| `ReplayCapture.ReplayableBody.Open` | internal/proxy/body.go:304-325 | an open body reopens to exactly the captured bytes or to the error of opening its file, which only a spooled body needs; a closed one never |
| `ReplayCapture.ReplayableBody.Close` | internal/proxy/body.go:336-374 | succeeds exactly when the file is gone, gives the reservation back once, and otherwise changes nothing |
| `RouteOwnership.Routing.constructor` | internal/proxy/proxy.go:130-145 | the server starts with one route, or a pair |
| `RouteOwnership.Routing.PublishPair` | internal/proxy/proxy.go:779-812 | publishes the pair and closes the previous one, unless routing is closed |
| `RouteOwnership.Routing.Fence` | internal/proxy/proxy.go:525-527 | routing is closed |
| `RouteOwnership.Routing.CloseBootstrap` | internal/proxy/proxy.go:542-552 | the DoH route is taken away and closed |
| `RouteOwnership.Routing.CloseRoute` | internal/proxy/proxy.go:553-561 | the normal route is taken away and closed |
| `RouteOwnership.RunInv` | internal/proxy/proxy.go:738-822 | in every run each routing object ever built is held by the reload that built it, published, or closed, exactly one of these, and closed at most once |
| `RouteOwnership.PublishedAsPair` | internal/proxy/proxy.go:788-799 | the normal and the DoH route readers see were built by the same reload, and one is missing only once routing is closed |
| `RouteOwnership.SeesLastPublished` | internal/proxy/proxy.go:779-812 | the routes readers see were built by the reload that published last: a publication takes effect whenever routing is open, and only shutdown takes routes away |
| `RouteOwnership.ReadersSeeNoClosed` | internal/proxy/proxy.go:869-877 | a reader inside its lock never has a closed object, and none only after shutdown took it |
| `RouteOwnership.NothingAfterShutdown` | internal/proxy/proxy.go:520-569 | from the fence on nothing is published again, and after shutdown nothing is published at all |
| `Watchdog.Watchdog.constructor` | internal/guardian/watchdog.go:13-18 | a window that is not positive becomes 20 seconds |
| `Watchdog.Watchdog.Ready` | internal/guardian/watchdog.go:20-25 | progress, observation and sequence start anew |
| `Watchdog.Watchdog.Beat` | internal/guardian/watchdog.go:27-33 | only a higher sequence after READY counts |
| `Watchdog.Watchdog.Check` | internal/guardian/watchdog.go:37-49 | reports and updates as specified |
| `Watchdog.StateExplained` | internal/guardian/watchdog.go:20-49 | after any calls the fields hold the last renewal, the last observation and the highest sequence since READY |
| `Watchdog.ReportsIffHung` | internal/guardian/watchdog.go:37-49 | a check reports a hang exactly when READY was said, the parent looked at most one window ago, and for more than one window no higher sequence and no pause came |
| `Watchdog.LastRenewalMeans` | internal/guardian/watchdog.go:27-49 | nothing after the last renewal renews the window |
| `Watchdog.HighestMeans` | internal/guardian/watchdog.go:27-33 | the highest sequence bounds all beats since READY and is one of them |
| `Watchdog.LastObservedMeans` | internal/guardian/watchdog.go:37-49 | only beats come after the last observation |
| `Watchdog.LastReadyMeans` | internal/guardian/watchdog.go:20-25 | READY was not said after the last READY |
| `GuardianWire.ReadBack` | internal/guardian/protocol.go:168-215 | every message written to the channel is read back as it was |
| `GuardianWire.ParsedWords` | internal/guardian/protocol.go:185-215 | a line is a message exactly if its words are READY, or STOP, or BEAT and a 64-bit number |
| `GuardianLoops.RunWorker` | internal/guardian/worker.go:51-136 | the select loop sends READY at the first probe that finds the server ready, a BEAT with its sequence at each later heartbeat without a fatal request, and STOP when the server ends in order; it asks for a restart exactly after READY on a failed server or a fatal request, reports a startup failure exactly if the server returns before READY, and else leaves normally |
| `GuardianLoops.WorkerExplained` | internal/guardian/worker.go:51-136 | the same for every sequence of turns, told from the turns alone |
| `GuardianLoops.WorkerLegal` | internal/guardian/worker.go:51-136 | for every sequence of turns the messages are a prefix of READY, BEAT*, STOP, or the rest of one, and STOP comes with a normal exit |
| `GuardianLoops.MonitorReadyWorker` | internal/guardian/parent.go:241-382 | the select loop ends at the first turn that ends it and with the disposition, ready time, protocol error and reaping that the turns up to it call for |
| `GuardianLoops.MonitorExplained` | internal/guardian/parent.go:241-382 | for every sequence of turns, told from the turns alone: without READY the generation is a startup failure unless cancelled; after READY it restarts if and only if the process failed, the worker hung, a message violated the protocol, or the channel was lost and the worker did not stop cleanly; else it is a normal stop |
| `GuardianLoops.MonitorLegal` | internal/guardian/parent.go:292-347 | on a prefix of READY, BEAT*, STOP the parent never takes a protocol-error branch |
| `GuardianLoops.RestartNeedsReady` | internal/guardian/parent.go:241-382 | a generation asks for a restart only after READY was seen |
| `GuardianProtocol.RunInv` | internal/guardian/worker.go:51-136 | in every interleaving the lines in flight are those sent and not yet received, in order |
| `GuardianProtocol.NoProtocolErrors` | internal/guardian/parent.go:292-347 | in every interleaving over the channel neither side takes a protocol-error branch: no duplicate READY, no BEAT or STOP before READY, no unreadable line, nothing but STOP at the worker |
| `GuardianRuns.MakePositive` | internal/guardian/parent.go:93-97 | a delay that is not positive becomes one second |
| `GuardianRuns.Normalize` | internal/guardian/parent.go:78-102 | defaults for missing options; the schedule is not empty and positive, the timeouts positive |
| `GuardianRuns.RestartedWasReady` | internal/guardian/parent.go:179-239 | a generation that is followed by another had said READY |
| `GuardianRuns.GenerationExplained` | internal/guardian/parent.go:179-239 | how a generation ends follows from what it meets: before a channel is accepted it is a normal stop if cancelled and else a startup failure, after that the turns decide |
| `GuardianRuns.Restart` | internal/guardian/parent.go:153-160 | the wait and the next level of a restart, a stable run starting over at level zero |
| `GuardianRuns.RunParent` | internal/guardian/parent.go:136-177 | a generation starts only after one that said READY asked for a restart and the wait was not cut short; the j-th restart since the last stable run waits for entry `min(j, len - 1)` of the schedule; a run that is not over has started the next generation, which has no result yet |
| `GuardianRuns.LevelIs` | internal/guardian/parent.go:154-160 | the wait is that of the number of restarts since the last stable run, up to the last entry, and the level counts on from there |
| `GuardianRuns.SinceCounts` | internal/guardian/parent.go:154-156 | that number counts back to the last stable run, or to the first generation |
| `GuardianRuns.DefaultWaits` | internal/guardian/backoff.go:5-13 | without options the waits are 1s, 5s, 30s, 2m and then 5m |
| `GuardianLife.AliveExplained` | internal/guardian/parent.go:179-434 | in every run a live child is the one its generation has in hand, or one its generation killed and gave up on |
| `GuardianLife.KilledBefore` | internal/guardian/parent.go:415-433 | a generation gives up only on a child it has killed, and the second timer runs from the kill |
| `GuardianLife.TwoAliveIff` | internal/guardian/parent.go:136-434 | for every run, the running generation included: two children are alive together at some moment if and only if a generation that ended in a restart killed its child, did not reap it within the timeout after, and a later child was started before that one exited |
| `GuardianLife.OutlivesTheTimers` | internal/guardian/parent.go:405-434 | such a child exits no earlier than the start of the later one, which comes at least the timeout and the wait between the generations after its killing |
| `GuardianLife.TwoWorkersRun` | internal/guardian/parent.go:370-434 | with any options there is a run that ends with two children alive |
| `UpstreamAuth.LockPooled` | internal/proxy/auth_upstream.go:52-63 | releases the lock in hand, then takes the one wanted |
| `UpstreamAuth.RemovePooled` | internal/proxy/auth_upstream.go:75-80 | drops exactly the entry in use from the pool and touches no lock or response |
| `UpstreamAuth.ClosePinned` | internal/proxy/auth_upstream.go:81-85 | releases the pinned transport if there is one |
| `UpstreamAuth.Finish` | internal/proxy/auth_upstream.go:105-110 | the pinned transport rides on the response |
| `UpstreamAuth.FailAuth` | internal/proxy/auth_upstream.go:111-118 | closes the response in hand and releases the pinned transport |
| `UpstreamAuth.Drain` | internal/proxy/auth_upstream.go:260-279 | the body of the 407 is closed exactly once on every path, and draining succeeds exactly when it ends within 64 KiB without an error |
| `UpstreamAuth.ChooseTransport` | internal/proxy/auth_upstream.go:125-173 | a challenge whose scheme the entry in use does not serve retires it and takes the one of the pool, or pins a connection without a reusable identity; an entry authenticated meanwhile answers the request |
| `UpstreamAuth.ReplayPooled` | internal/proxy/auth_upstream.go:139-163 | the replay on a connection authenticated meanwhile gives its response, another 407 to go on with, or an error; the entry stays in the pool only if it answered or nothing was sent |
| `UpstreamAuth.Authenticate` | internal/proxy/auth_upstream.go:175-222 | a credential round ends in an error if credentials fail, in the 407 itself if there are none, and else sends the request once more |
| `UpstreamAuth.Resend` | internal/proxy/auth_upstream.go:199-222 | the request sent with credentials gets the next response, whose status decides the flag of the entry in use, or an error that drops the entry |
| `UpstreamAuth.RetryLoop` | internal/proxy/auth_upstream.go:120-230 | at most three rounds, each with at most one new response; what is returned, the entry in use, the session and the pinned connection are those that the answers of the rounds call for |
| `UpstreamAuth.Deferred` | internal/proxy/auth_upstream.go:86-100 | the lock is released, the session closed once, and a failing close takes the response back |
| `UpstreamAuth.Retry` | internal/proxy/auth_upstream.go:27-230 | for every sequence of answers, with or without an inherited lock: the result is that of the first round not answered with another 407 (the answer, the 407 when there are no credentials, or an error), after three such rounds the last 407, a streamed body gives the first 407, and a session that cannot be closed an error; the entry in use stays in the pool, flagged, or is dropped; no lock is held at the end, every response is the one returned or closed once, the session is over and the pinned transport released or attached |
| `UpstreamAuth.SomeRoundIsLast` | internal/proxy/auth_upstream.go:120-223 | there is such a first round for every sequence of answers, or all three are refused |
| `UpstreamAuth.FindPooled` | internal/proxy/proxy.go:982-1006 | a cached entry stays locked exactly if it is authenticated |
| `UpstreamAuth.TryCandidate` | internal/proxy/proxy.go:975-1072 | a candidate is passed exactly if its request or its round trip fails and the caller is still there; a failed one leaves no lock and no response behind and drops its entry, one that answers is settled and keeps it |
| `UpstreamAuth.RoundTripWithFallback` | internal/proxy/proxy.go:972-1078 | with all candidates passed the result is the error; otherwise the first candidate that is not passed decides: its response if it is direct or no 407 came, what the rounds come to for a 407, an error if the caller is gone; and on every way out of both loops each lock taken was released once, none was taken while another was held, flags were touched only under their lock, set only after a response that was not a 407 and never left set after a 407, and of all responses exactly the returned one is open, the others closed once |
| `UpstreamAuth.LocksBalance` | internal/proxy/auth_upstream.go:52-73 | a log the automaton accepts has as many releases as takings of every lock, but for the one held |
| `UpstreamAuth.FlagsUnderLock` | internal/proxy/auth_upstream.go:64-73 | in an accepted log every reading or writing of `authenticated` comes while that entry's lock is held |
| `UpstreamAuth.FlagsAreEarned` | internal/proxy/auth_upstream.go:219-222 | in an accepted log `authenticated` is set only under the lock and only after a response, the last since the lock was taken, that was not a 407 |
| `UpstreamAuth.NotLeftSet` | internal/proxy/auth_upstream.go:64-73 | in an accepted log no lock is released with the flag set when the last response since the lock was taken is a 407 |
| `UpstreamAuth.NeverTwoLocks` | internal/proxy/auth_upstream.go:52-63 | in an accepted log no lock is taken while another is held |
| `UpstreamAuth.ResponsesConserved` | internal/proxy/auth_upstream.go:111-230 | in an accepted log every response is open and never closed, or closed exactly once |
| `UpstreamAuth.SessionOnce` | internal/proxy/auth_upstream.go:86-100 | in an accepted log at most one session was opened and closed at most once, and at most one connection pinned |

## Left out

- Sockets, TLS, the HTTP transport, process spawning, signals and real clocks: their outcomes are parameters or arbitrary events.
- The cryptography and base64 of the authentication schemes, credential providers and Digest nonce counts: a round only meets whether credentials exist and whether they fail.
- Invalid UTF-8, and the lower case of characters outside ASCII other than the two whose lower case is ASCII: text is a sequence of Unicode characters, and key names are ASCII.
- Line-length limits of the configuration scanner and of the control channel, and partial lines lost at a read deadline: a line is atomic.
- `socktimeout` and the other settings of `applyValueFrom`: any function of key and value stands for them, and durations other than `24h` are read by an arbitrary function.
- The map of setting sources in a configuration, backups and file replacement, the fresh file and the migration of a legacy file.
- PAC execution, regular expressions, `net/url`, `net.ParseIP`, JSON and the DNS header checks before the answer section.
- Windows code, keyring, tray, command line, diagnostics and debug logging.
- The recovery actions that the supervisor triggers after an outcome, and their own in-flight table: easy bookkeeping.
- `forceKerberosReloadForUpstreamAuth`, outcome recording and the header of the outgoing request in the candidate and retry loops: they touch no lock, response or session.
- External change of a spool file while a body is open: nothing else writes files made by `os.CreateTemp`; that one cannot be opened is an outcome of `Open`.
- Channels, mutexes and map iteration are modelled by their effect: a critical section is one step, a `select` an arbitrary choice, an iteration an arbitrary order.
- ReplayCapture.Capture: does not model the goroutine that closes the reader on cancellation, which shows as a read error, nor a nil budget.
