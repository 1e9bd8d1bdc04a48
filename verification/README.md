# SentinelPi: a verified model of its stateful cores

SentinelPi is a Python network monitor. Its detectors raise alerts, an alert manager suppresses,
stores and correlates them, responders act on them, and flow sources feed the detectors from
NetFlow/IPFIX, conntrack and firewall logs. This project models the parts whose correctness depends
on whole runs, and proves what they promise over every input and every run.

`dafny verify dfyconfig.toml` checks everything. One module per file:

| files | what they model |
|---|---|
| `Basics`, `OrderedDict` | what several modules share; Python's insertion-ordered dictionary as a value |
| `FlowCodec`, `FlowWalker` | the NetFlow v5/v9 and IPFIX parsers: record decoder, template parser, set walker, dispatcher |
| `FlowEncoder`, `FlowWire`, `FlowEnterprise` | an encoder after section 5 of RFC 3954 and sections 3.1 to 3.4 of RFC 7011 that the parser undoes, what the bytes say in numbers, and exactly which templates lose by the dropped enterprise bit |
| `TemplateCache`, `TemplateHistory`, `TemplateDomains`, `Collector` | the two-level LRU template cache, its run theorems, which header bytes keep domains apart, and the collector as an object with one heap table per context |
| `FlowSources` | conntrack snapshot comparison and log tailing |
| `Ledger`, `ResponderModel`, `ResponderSafety`, `ResponderGates`, `ResponderTimes`, `ResponderGaps`, `ResponderManager`, `Nftables` | active response as a write-ahead state machine: effects, operations, run theorems, what the switches stop, when blocks end, what rollback misses, the manager object, and rule deletion by handle |
| `Correlator`, `CorrelatorRefinement`, `CorrelatorEviction`, `CorrelatorIncidents`, `IncidentCorrelator` | the incident correlator, its agreement with a plain history, whom its cap evicts and when, when incidents are raised, and the object |
| `AlertFunnel`, `AlertWindow`, `AlertGates`, `AlertManager` | reservation, write and rollback as interleaved steps, how long suppression lasts, quiet hours and cooldowns in numbers, and the alert manager object |
| `Cef`, `CefReading`, `Syslog` | the SIEM printers with readers that undo them, and what the reader finds |
| `Welford`, `BaselineModel`, `BaselineEngine` | running statistics, checkpoints, and the engine object |
| `Beacon`, `BeaconDetector` | the beacon test over exact reals, and runs of the detector |
| `SynDedup`, `SynDedupLoad`, `Adaptive`, `PortScan`, `PortScanAlerts`, `PortScanEviction`, `PortScanLimits`, `PortScanDetector` | the bounded caches of detection beside references that forget nothing, what an alert says, and where the bounds are felt |

Code that changes things step by step is a class or a loop here too. Each method is proved to take
the step of a specification function; the theorems about runs are lemmas about those functions.
Clock readings are integers in microseconds (reals in seconds in the beacon modules). Seconds, counts
and byte positions are written out as numbers in the theorems and in the references. Failures of writes,
commands, reads and queues, and the points where a process dies, are parameters that the theorems
quantify over.

## What the proofs found

Where the code and its documentation disagree, the model follows the code, and the exact condition
is proved.

- An enterprise-specific IPFIX element whose low 15 bits name a decoded element is taken for it.
  Reading agrees with RFC 7011 if and only if no such element, unless of no length, is the last to
  carry an attribute, or the template yields no flows at all (`FlowEnterprise.ReadRightIffSafe`).
- Any two stored alerts of a key are a cooldown apart, over every interleaving of checks, writes and
  failures, if and only if alerts that share a key share one cooldown, and restarts do not come
  together with unanswered database checks (`AlertFunnel.SpacingIff`). Both conditions can fail. The
  incident key carries two cooldowns (600 s, and 120 s when critical), and a failed save can erase the
  memory of an alert that is still being written (`TwoCooldownsBreach`). After a restart memory is
  empty, and an alert whose database check raises passes at once (`UnansweredBreach`). Where the
  second condition holds, a key that mixes cooldowns still keeps its alerts as far apart as the
  shortest one (`KnownAreApart`).
- Suppression can outlast the cooldown. A repeat that only the database still knows is remembered as
  if it had fired. In every legal run, every duplicate of a key has an alert of that key within its own
  cooldown if and only if no such repeat came more than a clock tick after everything stored of the key
  (`AlertWindow.WindowHoldsIff`). Three things can produce such a repeat, each shown by a run: a restart
  (`RestartStretchesTheWindow`), a repeat exactly at the end of the cooldown, where memory compares
  strictly and the database does not (`RepeatOnTheMarkStretches`), and a failed write on a key with two
  cooldowns (`FailedWriteStretches`). With one cooldown per key, no restart and no repeat exactly on the
  mark the promise holds (`WindowHoldsInOneLife`).
- While responses are disabled or dry-run is on, an action executes if and only if it was queued before
  and is approved now: `approve` does not look at the switches again
  (`ResponderGates.OffExecutesIffApproved`, with a run in `SwitchedOffButExecutes`).
- A rule installed by an execution that then fails, or whose process dies before its last write, is
  never rolled back (`FailedRulesStay`, `InterruptedExecutionStays`). When nothing fails, a
  reconciliation removes the rules of exactly the firewall actions that are due
  (`RollbackIsCompleteIffDue`), which are those with a duration that executed at least that long ago
  (`BlocksEndOnTime`). But only the 200 newest actions are looked at: a block that 200 later plans have
  pushed out of the recent list stays until a restart (`PushedOutBlocksStay`).
- CEF header fields may carry raw line breaks: a record is one line if and only if the version and the
  title are (`OneLineIffHeaderIs`). Syslog frames read back if and only if no field holds a space.
- A `beacon_min_intervals` of 200 or more is accepted and silences the detector
  (`Beacon.CanAlertIff`); so does a port-scan threshold that exceeds the deque's 500 probes
  (`PortScanLimits.CanAlertIff`). `adaptive_threshold_trips_before_backoff` of 0 is accepted and
  desensitises quiet hosts (`QuietIsFullySensitiveIff`).
- Evicting idle scan state is not invisible. Let probes be handled up to `lag` ticks older than an
  earlier poll and up to `disorder` ticks older than an earlier probe. Evictions never change an alert
  if and only if `lag + disorder` is at most one clock tick, for every port threshold of at least two
  that the 500 probes of a deque can reach (`PortScanLimits.EvictionInvisibleIff`). Late probes come
  from the queue, and from `_poll` itself: it stamps its own probes before its evictions read the clock
  again. Whatever the two are, evictions hide at most the oldest `lag + disorder - 1` ticks of the
  minute (`PortScan.WindowLosesAtMost`).
- A stale SYN entry can outlive its minute behind a refreshed one. The cap pushes out a live tuple only
  at the load of two minutes (`SynDedup.PushedOnlyWhenBusy`), and there is a run in which the load of
  the last minute fits the cap and a tuple is pushed out nevertheless
  (`SynDedupLoad.OneMinuteIsNotEnough`).

## Model

| member | source | states |
|---|---|---|
| FlowCodec.DecodeRecord | src/sentinelpi/capture/flow_ingest.py:301-336 | the record loop computes the decoding function on every template and byte string, short records included (None) |
| FlowCodec.DecodeUndoesEncode | src/sentinelpi/capture/flow_ingest.py:301-336 | decoding the concatenated field values of any template gives back what the record means: the last field of each attribute wins, unknown fields are skipped |
| FlowWire.MostSignificantFirst | src/sentinelpi/capture/flow_ingest.py:320-326 | numbers are read most significant byte first: the first byte counts 256 to the power of the number of bytes after it |
| FlowWire.NumberIsRead | src/sentinelpi/capture/flow_ingest.py:320-326 | a number of any length in network order is read back |
| FlowWire.WordsAreRead | src/sentinelpi/capture/flow_ingest.py:369-391 | so are the 16-bit and 32-bit words of headers and templates |
| FlowWire.NumbersAreRead | src/sentinelpi/capture/flow_ingest.py:301-336 | in any record, the last field of element 7, 11, 1 or 4 holding a number in network order gives that source port, destination port, octets or protocol, and protocols 1, 6 and 17 have their names |
| FlowWire.AddressesAreRead | src/sentinelpi/capture/flow_ingest.py:311-327 | the last field 8 or 27, and the last 12 or 28, of length 4 or 16 give the source and destination bytes |
| FlowWire.MissingIsRefused | src/sentinelpi/capture/flow_ingest.py:327-328 | a template without a source or without a destination yields nothing |
| FlowWire.MissingIsZero | src/sentinelpi/capture/flow_ingest.py:304-305 | a number the template does not carry is 0 |
| FlowWalker.ParseFieldList | src/sentinelpi/capture/flow_ingest.py:352-366 | the inner template loop reads exactly the listed fields; its cursor passes the end of the body by at most 4 bytes, and only in IPFIX |
| FlowWalker.ParseTemplateFields | src/sentinelpi/capture/flow_ingest.py:339-366 | on every byte string the loop terminates, stays in range, and returns the templates of the recursive reading, later ones replacing earlier |
| FlowWalker.ParseSet | src/sentinelpi/capture/flow_ingest.py:385-413 | one set updates the caller's template table in place or yields records, never more than the budget left |
| FlowWalker.ParseV9Like | src/sentinelpi/capture/flow_ingest.py:369-413 | the set loop on any bytes ends, each set advancing at least 4 bytes, with table and flows of the walk function |
| FlowWalker.ParseNetflowV5 | src/sentinelpi/capture/flow_ingest.py:271-298 | the v5 loop yields the fixed-size records the header announces, as far as the bytes and the limit go |
| FlowWalker.ParseNetflow | src/sentinelpi/capture/flow_ingest.py:452-468 | the dispatcher: version decides the parser, anything else yields nothing and leaves the table alone |
| FlowWalker.WalkBound | src/sentinelpi/capture/flow_ingest.py:369-413 | over any bytes the walk only appends flows and decodes no more than it counted |
| FlowWalker.DatagramBound | src/sentinelpi/capture/flow_ingest.py:452-468 | whatever the bytes and the table, a datagram yields at most max_records flows |
| FlowEncoder.ReadTemplatesUndoesEncode | src/sentinelpi/capture/flow_ingest.py:339-366 | parsing any encoded list of templates, padded by less than a header, registers exactly those templates |
| FlowEncoder.WalkDataUndoesEncode | src/sentinelpi/capture/flow_ingest.py:385-413 | parsing a data set padded by less than a record gives the meanings of its records up to the budget |
| FlowEncoder.UpdateRegister | src/sentinelpi/capture/flow_ingest.py:389-392 | collecting the templates of a set and then merging them equals registering them one by one, in insertion order |
| FlowEncoder.WalkUndoesEncode | src/sentinelpi/capture/flow_ingest.py:369-413 | parser undoes encoder: any message of template, options, data and unknown sets under section 5 of RFC 3954 or section 3 of RFC 7011 is read back as its independent interpretation, templates and data in any order |
| FlowEncoder.DatagramUndoesEncode | src/sentinelpi/capture/flow_ingest.py:416-468 | the same for whole datagrams through the dispatcher |
| FlowEncoder.TemplateThenData | src/sentinelpi/capture/flow_ingest.py:369-468 | a template announced in one datagram decodes the records of a later one: exactly the first max_records meanings come back |
| FlowEncoder.V5UndoesEncode | src/sentinelpi/capture/flow_ingest.py:271-298 | an encoded v5 packet gives back its records, at most max_records of them |
| FlowWire.DatagramsAreRead | src/sentinelpi/capture/flow_ingest.py:369-468 | two datagrams given byte by byte, version 9 or IPFIX, a template of six elements and a record of it, yield exactly that flow whatever the table before |
| FlowWire.Version5IsRead | src/sentinelpi/capture/flow_ingest.py:268-298 | every record of a version 5 packet, 48 bytes each after 24 of header, is read from its byte positions |
| FlowEnterprise.SafeIsRead | src/sentinelpi/capture/flow_ingest.py:354-363 | sufficient: a template in which no colliding enterprise element is the last carrier of an attribute is read as RFC 7011 reads it |
| FlowEnterprise.UnsafeIsMisread | src/sentinelpi/capture/flow_ingest.py:354-363 | necessary: every other template has a record, constructed here, that is read wrong because the enterprise bit is dropped |
| FlowEnterprise.ReadRightIffSafe | src/sentinelpi/capture/flow_ingest.py:354-363 | the parser agrees with the standard on all records of a template if and only if the template is safe |
| FlowEnterprise.EnterprisePortIsMisread | src/sentinelpi/capture/flow_ingest.py:361 | a concrete template: an enterprise element numbered 7 overwrites the source port |
| TemplateHistory.TrimShape | src/sentinelpi/capture/flow_ingest.py:640-644 | trimming drops the oldest templates only and keeps the others and their order |
| TemplateHistory.RunInv | src/sentinelpi/capture/flow_ingest.py:554-644 | after every history of datagrams the exporters listed are exactly those owning a context, and all three limits hold |
| TemplateHistory.ContextsAreIsolated | src/sentinelpi/capture/flow_ingest.py:554-644 | context isolation: a cached context's table equals the replay of only its own datagrams since it was last created, whatever others sent and whatever was evicted |
| TemplateHistory.FlowsAreIsolated | src/sentinelpi/capture/flow_ingest.py:554-587 | hence the flows of a datagram depend only on its own context's datagrams |
| TemplateDomains.ContextIsTheHeaders | src/sentinelpi/capture/flow_ingest.py:594-607 | a datagram's context is the exporter with the number in bytes 16 to 20 of a version 9 header of 20 bytes, 12 to 16 of an IPFIX header of 16, or 0 in version 5, and no other datagram has one |
| TemplateDomains.TableIsWhatWasSent | src/sentinelpi/capture/flow_ingest.py:554-644 | without evictions, every context's table is the replay of what its exporter sent under headers with its number |
| TemplateDomains.DomainsNeverMix | src/sentinelpi/capture/flow_ingest.py:554-587 | two histories without evictions that agree on what an exporter sent under one domain give its next datagram there the same flows, whatever else they hold |
| TemplateDomains.OtherDomainsAreLeftAlone | src/sentinelpi/capture/flow_ingest.py:554-644 | a datagram under another domain leaves a domain's table as it is, as long as the context stays cached |
| TemplateHistory.RecencyOrder | src/sentinelpi/capture/flow_ingest.py:609-638 | both orders are the orders of last use over the whole history |
| TemplateHistory.EvictedExporterIsOldest | src/sentinelpi/capture/flow_ingest.py:615-626 | an evicted exporter was heard from less recently than every other |
| TemplateHistory.EvictedDomainIsOldest | src/sentinelpi/capture/flow_ingest.py:627-637 | an evicted domain was its exporter's least recently used |
| TemplateHistory.EvictionsCountLosses | src/sentinelpi/capture/flow_ingest.py:554-644 | cache_evictions is the number of contexts lost plus templates trimmed, over any history |
| Collector.NetFlowCollector.constructor | src/sentinelpi/capture/flow_ingest.py:479-514 | limits below one are raised to one; the empty collector represents the empty history |
| Collector.NetFlowCollector.GetTemplateCache | src/sentinelpi/capture/flow_ingest.py:609-638 | look-up, recency move and both evictions in place follow the cache function; each context owns its own table object |
| Collector.NetFlowCollector.HandleDatagram | src/sentinelpi/capture/flow_ingest.py:554-587 | one datagram on the heap objects takes exactly one step of the model run; accepted flows are queued in order, the others counted, rejected and malformed ones counted |
| FlowSources.EveryAppearanceCounts | src/sentinelpi/capture/flow_ingest.py:191-220 | conntrack: queued plus dropped of each 5-tuple equals its absent-to-present transitions over the successful polls after the first, whatever polls fail and whatever the queue refuses |
| FlowSources.ArrivalsCount | src/sentinelpi/capture/flow_ingest.py:191-220 | in terms of lines: a flow is queued, or dropped where the queue refuses it, exactly once for each readable poll that lists it after one that did not |
| FlowSources.ConntrackFlowSource.PollOnce | src/sentinelpi/capture/flow_ingest.py:191-220 | one poll takes the tracker's step on the set of parsed flows, and its result is the growth of the emitted counter |
| FlowSources.SplitUndoesJoin | src/sentinelpi/capture/flow_ingest.py:812-816 | the lines and the unfinished rest hold no newline, and joined by newlines they are the text |
| FlowSources.LinesResume | src/sentinelpi/capture/flow_ingest.py:812-816 | splitting text at newlines can stop anywhere and continue from the unfinished line |
| FlowSources.TailIsScheduleFree | src/sentinelpi/capture/flow_ingest.py:789-816 | filterlog: for a log that only grows, the lines given out so far and the buffer are the split of all text read since the start, however polls cut it and whichever fail |
| FlowSources.LastReadIsComplete | src/sentinelpi/capture/flow_ingest.py:789-816 | a read that reaches the end has given out every complete line of the log |
| FlowSources.RotationStartsOver | src/sentinelpi/capture/flow_ingest.py:794-800 | a visible rotation or truncation reads the new file from its top and gives up the unfinished old line |
| FlowSources.FilterlogSource.ReadNewLines | src/sentinelpi/capture/flow_ingest.py:789-816 | offset, inode and buffer updated in place take the tail function's step |
| FlowSources.FilterlogSource.PollOnce | src/sentinelpi/capture/flow_ingest.py:776-787 | the lines that parse are queued in their order as far as the queue accepts, and the others of them counted as dropped |
| FlowSources.TakenInOrder | src/sentinelpi/capture/flow_ingest.py:776-787 | every line that parses and is accepted stands in the queue after those of the lines before it |
| Ledger.AtMostOnce | src/sentinelpi/responders/manager.py:143-228 | in any permitted effect log an action runs at most once, only over a durable EXECUTING row, never after a durable rejection, only if enabled, armed and approved where needed |
| Ledger.NeverAfterRejection | src/sentinelpi/responders/manager.py:285-299 | after a durable rejection the action never executes |
| Ledger.OneRulePerChain | src/sentinelpi/responders/firewall.py:88-130 | an action has at most one marked rule per chain, and none before it ran |
| Ledger.ExpiredMeansGone | src/sentinelpi/responders/firewall.py:132-173 | a durable EXPIRED row means none of the action's rules is left |
| Ledger.DropsAreOwn | src/sentinelpi/responders/firewall.py:151-173 | a rule is removed only under its own action's EXPIRING row |
| ResponderSafety.RunKeeps | src/sentinelpi/responders/manager.py:42-299 | every run of handle, approve, reject, reconcile, registration and reconfiguration, with failing writes and commands and crashes between any two effects, leaves a permitted log and a consistent memory |
| ResponderSafety.ExecutesAtMostOnce | src/sentinelpi/responders/manager.py:143-228 | crash-safe at-most-once for every run |
| ResponderSafety.ExpiredLeavesNoRule | src/sentinelpi/responders/manager.py:230-266 | exact nftables rollback for every run |
| ResponderGates.HandleRespectsGates | src/sentinelpi/responders/manager.py:143-215 | handle executes an action if and only if responses are enabled and it is one of the plans with its rows written, dry-run off and no approval needed |
| ResponderGates.OffExecutesIffApproved | src/sentinelpi/responders/manager.py:143-299 | in every run, while responses are disabled or dry-run is on, a step executes an action if and only if it is the approval of that pending action with its intent written (and, at a crash, not cut off before the command) |
| ResponderGates.SwitchedOffButExecutes | src/sentinelpi/responders/manager.py:269-283 | a run: an action is queued while armed, the master switch is thrown, the approval executes it |
| ResponderSafety.ExpireIsIdempotent | src/sentinelpi/responders/firewall.py:132-173 | expiring an action again after a successful expiry deletes nothing and succeeds, as long as the chains can be listed |
| ResponderSafety.RollbackIsCompleteIffDue | src/sentinelpi/responders/manager.py:230-266 | with writes and commands working, one reconciliation removes a rule if and only if its action is a firewall action in the recent list that is due, whatever other responders' actions are due with it |
| ResponderTimes.RunTimes | src/sentinelpi/responders/manager.py:217-228 | over every run with failures, crashes and restarts, an executed action that may still be rolled back ends its duration in seconds after its execution, or never without one |
| ResponderTimes.BlocksEndOnTime | src/sentinelpi/responders/manager.py:217-266 | after any run, a working reconciliation removes a rule of an executed firewall action in the recent list if and only if its responder is registered, the action has a duration and was executed at least that many seconds ago |
| ResponderTimes.RecentAreTheNewest | src/sentinelpi/responders/manager.py:51-52 | until a crash the recent list is the newest 200 planned actions |
| ResponderTimes.PushedOutBlocksStay | src/sentinelpi/responders/manager.py:236-241 | a block that 200 later plans have pushed out of it is not rolled back |
| ResponderSafety.FailedRulesStay | src/sentinelpi/responders/manager.py:217-266 | a rule under a durable FAILED row is never rolled back, whatever follows |
| ResponderSafety.HalfExecutionLeavesRule | src/sentinelpi/responders/firewall.py:112-130 | such a row arises: the first command succeeds, the second fails |
| ResponderGaps.InterruptedExecutionStays | src/sentinelpi/responders/manager.py:73-90 | after a restart that finds an EXECUTING row, that row and its rules stay for ever, whatever runs later |
| ResponderGaps.InterruptionLeavesRule | src/sentinelpi/responders/manager.py:217-228 | such a crash exists: between the commands and the last write |
| ResponderManager.Manager.constructor | src/sentinelpi/responders/manager.py:42-90 | a start reads back the rows it is given and represents the model's restart |
| ResponderManager.Manager.Execute | src/sentinelpi/responders/firewall.py:112-130 | the commands run in order, stop at the first failure and add exactly their marked rules |
| ResponderManager.Manager.ExpireAction | src/sentinelpi/responders/firewall.py:132-173 | both chains in order, stopping at the first failure |
| ResponderManager.Manager.RunIt | src/sentinelpi/responders/manager.py:217-228 | intent, execution and outcome in order; a refused intent runs nothing |
| ResponderManager.Manager.HandleAlert | src/sentinelpi/responders/manager.py:143-208 | memory and effects are those of the model's handle |
| ResponderManager.Manager.ApproveAction | src/sentinelpi/responders/manager.py:269-283 | memory and effects are those of the model's approve |
| ResponderManager.Manager.RejectAction | src/sentinelpi/responders/manager.py:285-299 | memory and effects are those of the model's reject |
| ResponderManager.Manager.MarkExpiring | src/sentinelpi/responders/manager.py:243-244 | every due action is EXPIRING in memory before anything is written |
| ResponderManager.Manager.ReconcileExpired | src/sentinelpi/responders/manager.py:230-266 | memory and effects are those of the model's reconciliation, and the count is of the due actions that end up EXPIRED |
| ResponderManager.Manager.AddResponder | src/sentinelpi/responders/manager.py:63-71 | binds the waiting approvals of that responder and reconciles |
| Nftables.NftChain.ExpireMarked | src/sentinelpi/responders/firewall.py:151-173 | lists, finds the first marked rule and deletes it by handle; absence is success, failure changes nothing |
| Nftables.OthersStay | src/sentinelpi/responders/firewall.py:151-173 | an expiry touches no other action's rule and no foreign rule |
| Nftables.HandlesStay | src/sentinelpi/responders/firewall.py:151-173 | handles stay unique, so the next delete hits the rule it means |
| Nftables.ExpiryClearsIffOnce | src/sentinelpi/responders/firewall.py:151-173 | success clears the chain of the action if and only if it had at most one rule there |
| Nftables.ExpiryIsTheLedgers | src/sentinelpi/responders/firewall.py:151-173 | deleting by handle in a listed chain and the ledger's removal from a multiset of marks give the same answer and keep agreeing, the other chain untouched |
| Correlator.WindowAgrees | src/sentinelpi/alerts/correlator.py:99-102 | a lazily pruned, length-limited deque yields exactly the window of the plain history |
| CorrelatorRefinement.CleanupAgrees | src/sentinelpi/alerts/correlator.py:125-148 | the throttled sweep and the cooldown deletion change no answer |
| CorrelatorRefinement.CorrelatorRefinesHistory | src/sentinelpi/alerts/correlator.py:61-164 | after any run, observe answers exactly as a reference that only knows the actor's observations and last incident since its last eviction; at most max_actors actors are held |
| CorrelatorRefinement.NothingEvictedBelowCap | src/sentinelpi/alerts/correlator.py:81-89 | nothing is evicted while the actors seen fit the cap |
| CorrelatorEviction.ObservationOrder | src/sentinelpi/alerts/correlator.py:77-89 | after any run the actors are held in the order of their last observation |
| CorrelatorEviction.EvictedActorIsOldest | src/sentinelpi/alerts/correlator.py:86-89 | an evicted actor was observed less recently than every actor that stays |
| CorrelatorEviction.EvictedOnlyWhenBusy | src/sentinelpi/alerts/correlator.py:77-137 | the cap evicts only when more actors than it holds were observed within the window plus one sweep interval |
| CorrelatorRefinement.MatchIsEmbedding | src/sentinelpi/alerts/correlator.py:180-191 | what the scan returns is an order-preserving selection of the sequence |
| CorrelatorRefinement.SequenceIffSubSequence | src/sentinelpi/alerts/correlator.py:180-191 | the greedy scan finds a match exactly when the sequence is a subsequence of the window |
| CorrelatorIncidents.MatchIffIntrusion | src/sentinelpi/alerts/correlator.py:180-191 | the scan succeeds exactly when a new device is followed by a port scan and that by a lateral movement |
| CorrelatorIncidents.RaisesIff | src/sentinelpi/alerts/correlator.py:77-123 | over any run, an observation raises an incident if and only if the actor's window calls for one, by sensors, targets or the sequence, and every incident of the actor since its last eviction is at least cooldown_seconds old; and which kind |
| CorrelatorIncidents.IncidentsAreApart | src/sentinelpi/alerts/correlator.py:162-164 | two incidents of an actor not evicted in between are at least cooldown_seconds apart |
| CorrelatorIncidents.BlamedOn | src/sentinelpi/alerts/correlator.py:166-178 | who is the actor and who the target of an alert, by category, and of an alert that names one host |
| CorrelatorIncidents.CampaignsAreRaised | src/sentinelpi/alerts/correlator.py:61-123 | alerts against one attacker within one window that name min_targets victims or come from min_sensors sensors do not pass without an incident |
| IncidentCorrelator.IncidentCorrelator.ObserveAlert | src/sentinelpi/alerts/correlator.py:61-123 | the object takes the model's step; incidents and actorless alerts leave it alone |
| IncidentCorrelator.IncidentCorrelator.CleanupAt | src/sentinelpi/alerts/correlator.py:125-148 | the sweep loop equals the model's cleanup |
| IncidentCorrelator.MatchedSequence | src/sentinelpi/alerts/correlator.py:180-191 | the single loop computes the recursive greedy match |
| IncidentCorrelator.PeakSeverity | src/sentinelpi/alerts/correlator.py:208-219 | the result is the highest severity present, INFO when there is none |
| AlertFunnel.RunKeeps | src/sentinelpi/alerts/manager.py:151-297 | bookkeeping, ownership and cause of every remembered time survive every interleaving of reservations, writes, counts, failures and restarts |
| AlertFunnel.Conservation | src/sentinelpi/alerts/manager.py:158-203 | processed = suppressed + fired + failed + in flight, and what one life fired is in the database |
| AlertFunnel.FailureFreesOnlyItself | src/sentinelpi/alerts/manager.py:187-197 | a failed save forgets no other key, and none that another standing alert still needs |
| AlertFunnel.FailedIsRetryable | src/sentinelpi/alerts/manager.py:187-197 | after a failed save the next alert of the key passes unless another one of the key stands within its cooldown plus the longest one |
| AlertFunnel.SuppressedForACause | src/sentinelpi/alerts/manager.py:247-279 | behind every duplicate stands a stored or in-flight alert of its key within its cooldown plus the longest one |
| AlertWindow.RestartStretchesTheWindow | src/sentinelpi/alerts/manager.py:268-275 | a restart makes suppression outlast the cooldown: memory is empty, and the repeat found in the database is remembered as if it had fired |
| AlertWindow.RepeatOnTheMarkStretches | src/sentinelpi/alerts/manager.py:259-275 | so does a repeat exactly one cooldown after its cause, within one process life: memory compares strictly, the database inclusively |
| AlertWindow.FailedWriteStretches | src/sentinelpi/alerts/manager.py:187-275 | so does, with two cooldowns on a key, a failed write that erases the key's memory while an older row is stored |
| AlertWindow.WindowHoldsIff | src/sentinelpi/alerts/manager.py:247-279 | the exact condition, for every legal run and key: every duplicate has an alert of its key standing within its own cooldown if and only if no repeat known only to the database was remembered more than a tick after everything stored of the key |
| AlertWindow.RefreshIsOnTheMark | src/sentinelpi/alerts/manager.py:247-279 | without a restart and with one cooldown per key, such a repeat is exactly one cooldown after an earlier alert of the key |
| AlertWindow.WindowHoldsInOneLife | src/sentinelpi/alerts/manager.py:247-279 | in terms of the alerts alone: no restart, one cooldown per key and no alert exactly on the mark make suppression last no longer than the cooldown |
| AlertFunnel.RunSpaced | src/sentinelpi/alerts/manager.py:151-297 | through all interleavings, failures, pruning and restarts, two alerts of a key are as far apart as any lower bound of the cooldowns the key carries, even when it mixes them, if the second was let through in the same process life or with an answer from the database |
| AlertFunnel.KnownAreApart | src/sentinelpi/alerts/manager.py:151-297 | without exception for all pairs, when every database check is answered or nothing restarts |
| AlertFunnel.TwoCooldownsBreach | src/sentinelpi/alerts/manager.py:187-197 | with two cooldowns on a key a legal interleaving, every check answered and nothing restarted, stores two alerts closer than the later one's cooldown |
| AlertFunnel.UnansweredBreach | src/sentinelpi/alerts/manager.py:268-279 | with one cooldown, a restart followed by an unanswered database check stores two alerts of a key one microsecond apart |
| AlertFunnel.SpacingIff | src/sentinelpi/alerts/manager.py:151-297 | for alerts of any kinds, any two stored alerts of a key are at least the later one's cooldown apart over all possible runs if and only if alerts sharing a key share a cooldown and either every check is answered, nothing restarts, or no alert has a key |
| AlertFunnel.CalmRunsAreSpaced | src/sentinelpi/alerts/manager.py:247-279 | without concurrent writes on one key and with the database answering, spacing holds for mixed cooldowns and across restarts |
| AlertGates.LetThroughIff | src/sentinelpi/alerts/manager.py:157-176 | in every run an alert is let through if and only if it is no duplicate and, in quiet hours, HIGH or CRITICAL; else it is counted as suppressed |
| AlertGates.CooldownIs | src/sentinelpi/alerts/manager.py:40-55 | the seconds of each category, 120 for critical alerts |
| AlertGates.RepeatPassesIff | src/sentinelpi/alerts/manager.py:247-279 | a repeat of a stored alert passes exactly when those seconds are over, with the database's answer the last moment still suppressed |
| AlertGates.MemoryIsPruned | src/sentinelpi/alerts/manager.py:281-297 | memory holds at most 2048 keys after an alert, or nothing older than an hour, and forgets nothing younger |
| AlertManager.AlertManager.IsDuplicate | src/sentinelpi/alerts/manager.py:247-279 | memory is strict, the database inclusive, and a repeat known only to the database is remembered |
| AlertManager.AlertManager.PruneDedup | src/sentinelpi/alerts/manager.py:281-297 | above the threshold exactly the entries older than the longest cooldown go |
| AlertManager.AlertManager.Admit | src/sentinelpi/alerts/manager.py:157-176 | the first locked block takes the reservation step; it lets an alert through exactly when it is no duplicate and, in quiet hours, HIGH or CRITICAL |
| AlertManager.AlertManager.Persist | src/sentinelpi/alerts/manager.py:184-203 | the write and the block after it take the commit and count steps, or the failure step |
| AlertManager.AlertManager.HandleAlert | src/sentinelpi/alerts/manager.py:151-245 | the whole call takes the steps of its alert and of at most one incident, which raises none itself |
| AlertManager.IncidentsAreHeard | src/sentinelpi/alerts/correlator.py:221-241 | an incident's alert is heard in quiet hours, has its actor's key, and is held back for two minutes when three sensors or twenty targets came together, else for ten |
| Cef.HeaderIsPerCharacter | src/sentinelpi/alerts/siem.py:182-184 | the chained replaces escape character by character |
| Cef.ExtIsPerCharacter | src/sentinelpi/alerts/siem.py:187-194 | likewise for extension values |
| Cef.FormatCef | src/sentinelpi/alerts/siem.py:197-235 | the list built step by step renders the header fields and exactly the pairs present |
| Cef.ReadUndoesLine | src/sentinelpi/alerts/siem.py:197-235 | a reader on unescaped bars and equals signs recovers any seven fields and all values under plain keys |
| Cef.CefRoundTrip | src/sentinelpi/alerts/siem.py:197-235 | every alert's line gives back its header fields and pairs, CR as LF |
| Cef.ExactIffNoReturns | src/sentinelpi/alerts/siem.py:187-194 | what comes back is what went in if and only if no value holds a carriage return |
| Cef.OneLineIffHeaderIs | src/sentinelpi/alerts/siem.py:182-235 | a record is one line if and only if version and title hold no line break: headers are not escaped for it |
| CefReading.LineTells | src/sentinelpi/alerts/siem.py:197-235 | the reader of any alert's line finds attacker and victim under src and dst, scans and lateral movements naming the related host as the attacker, and every other value under its key |
| CefReading.NamesTell | src/sentinelpi/alerts/siem.py:53-60 | different categories and severities are told apart, the severities as 1, 3, 5, 8 and 10 |
| Syslog.ReadUndoesPrintIff | src/sentinelpi/alerts/siem.py:238-258 | a frame gives back facility, severity, fields and payload if and only if no field before the payload holds a space |
| Syslog.FormatReadsBack | src/sentinelpi/alerts/siem.py:238-258 | the formatter's PRI is at most 191 and decodes to its facility and severity |
| Syslog.FormatTells | src/sentinelpi/alerts/siem.py:45-100 | a reader of a frame finds the RFC 5424 code of the facility, the level of the severity and every field in its place |
| Welford.DeviationsShift | src/sentinelpi/baseline/engine.py:57-62 | how summed squared deviations change with the centre |
| Welford.MeanIsLeast | src/sentinelpi/baseline/engine.py:57-62 | deviations about any point exceed those about the mean by n times the squared distance |
| Welford.WelfordIsExact | src/sentinelpi/baseline/engine.py:57-62 | after any samples mean = sum / n and M2 = summed squared deviations >= 0 |
| Welford.VarianceIsExact | src/sentinelpi/baseline/engine.py:75-77 | after any samples the variance is the mean squared deviation, 0 for fewer than two samples |
| Welford.RestartIsTransparent | src/sentinelpi/baseline/engine.py:64-80 | rebuilding from (mean, stddev, n) gives the same statistics |
| Welford.CutsDoNotMatter | src/sentinelpi/baseline/engine.py:64-80 | however a stream is cut by restarts, the statistics are those of the whole stream |
| Welford.RunningStats.Add | src/sentinelpi/baseline/engine.py:57-62 | the update in place is Welford's step |
| BaselineModel.RunKeepsCheckpoints | src/sentinelpi/baseline/engine.py:208-259 | through failing writes, partial flushes and crashes, a clean key's row is its current statistics and every row an earlier state |
| BaselineModel.CrashLosesAtMostNine | src/sentinelpi/baseline/engine.py:230-238 | while checkpoint writes work, a crash takes at most the newest nine samples of a key |
| BaselineModel.FlushIsComplete | src/sentinelpi/baseline/engine.py:240-259 | a flush that returns leaves nothing dirty, nothing to lose and nothing for a second one |
| BaselineEngine.BaselineEngine.constructor | src/sentinelpi/baseline/engine.py:167-187 | loading rebuilds exactly the statistics the rows stand for, in distinct objects |
| BaselineEngine.BaselineEngine.RecordConnectionCount | src/sentinelpi/baseline/engine.py:208-238 | one sample into its own key's object, checkpointed at every tenth; raises exactly when that write fails |
| BaselineEngine.BaselineEngine.FlushDirty | src/sentinelpi/baseline/engine.py:240-259 | writes dirty keys until done or the first failure; the count is what left the dirty set |
| Beacon.RegularWithoutRoots | src/sentinelpi/detectors/beacon_detector.py:157-165 | the CV test without its square root |
| Beacon.JitterIsCaught | src/sentinelpi/detectors/beacon_detector.py:132-175 | jitter completeness: enough gaps within j of a period, p(1-j) >= 5 and j/(1-j) within the threshold, always pass |
| Beacon.RegularGapsAreNear | src/sentinelpi/detectors/beacon_detector.py:157-165 | of a regular flow no counted gap is further from the mean than threshold x mean x sqrt(n) |
| Beacon.CanAlertIff | src/sentinelpi/detectors/beacon_detector.py:58 | some traffic can alert if and only if beacon_min_intervals is below 200, the deque's length; the configuration accepts more |
| BeaconDetector.DetectorRefinesHistory | src/sentinelpi/detectors/beacon_detector.py:74-179 | over any run, alerts come exactly when the newest 200 timestamps since the flow was cleared are regular and its last alert ever is 30 minutes old |
| BeaconDetector.AlertsAreApart | src/sentinelpi/detectors/beacon_detector.py:166-179 | two alerts of one flow are at least half an hour apart |
| BeaconDetector.ClearedIffIdle | src/sentinelpi/detectors/beacon_detector.py:249-260 | a poll end clears a flow if and only if it was silent for more than an hour and the last clearing is more than five minutes ago |
| BeaconDetector.BeaconDetector.ProcessEvent | src/sentinelpi/detectors/beacon_detector.py:74-94 | the event takes the model's step |
| BeaconDetector.BeaconDetector.CleanupIdleFlows | src/sentinelpi/detectors/beacon_detector.py:249-260 | exactly the flows silent for an hour go, with their cooldown |
| SynDedup.DedupAgrees | src/sentinelpi/capture/packet_capture.py:353-372 | for nondecreasing timestamps a SYN is a repeat exactly when its tuple's last accepted SYN is under 60 s old and the cap has not pushed it out since |
| SynDedup.PushedOnlyWhenBusy | src/sentinelpi/capture/packet_capture.py:353-372 | the cap pushes out a tuple only when more than 50,000 were accepted within two minutes |
| SynDedupLoad.OneMinuteIsNotEnough | src/sentinelpi/capture/packet_capture.py:353-372 | a run: a stale entry waits behind a refreshed one, and a tuple accepted within the minute is pushed out though at most 50,000 were accepted in it |
| SynDedupLoad.BelowCapAgrees | src/sentinelpi/capture/packet_capture.py:353-372 | while the accepted SYNs of two minutes fit the cap, the answer is that of an unbounded map |
| SynDedup.RepeatsHaveWitness | src/sentinelpi/capture/packet_capture.py:353-372 | at any load and for any timestamps, a repeat has an accepted SYN of its tuple under 60 s before |
| SynDedup.CacheFits | src/sentinelpi/capture/packet_capture.py:370-371 | the cache never exceeds its cap |
| SynDedup.SynFilter.IsRetransmittedSyn | src/sentinelpi/capture/packet_capture.py:353-372 | the loops on the ordered dictionary compute the check |
| SynDedup.SynFilter.PassesTcp | src/sentinelpi/capture/packet_capture.py:346-350 | a TCP packet passes exactly when it opens a connection and is no repeat |
| Adaptive.MultiplierIsDeserved | src/sentinelpi/detectors/adaptive.py:65-92 | one answer is what all trips recorded for its own key deserve, whatever pruning and sweeps did |
| Adaptive.RunMultiplier | src/sentinelpi/detectors/adaptive.py:65-109 | over any run the multiplier is the capped linear function of the key's trips in the window |
| Adaptive.MultiplierPromises | src/sentinelpi/detectors/adaptive.py:79-92 | within [1, max]; never lower for a trip, never higher for time passing, independent of other keys |
| Adaptive.QuietIsFullySensitiveIff | src/sentinelpi/detectors/adaptive.py:79-92 | after any run, a key without a trip in the window has multiplier 1 if and only if adaptation is off, backoff needs at least one trip, or cannot raise anything; zero is accepted too |
| Adaptive.CeilingIffFull | src/sentinelpi/detectors/adaptive.py:98-109 | recording a trip with fewer than 8192 keys leaves all others alone; with more, idle keys go until there is room or none is left |
| Adaptive.AdaptiveThresholds.MultiplierFor | src/sentinelpi/detectors/adaptive.py:79-92 | state and answer are the model's |
| Adaptive.AdaptiveThresholds.RecordTripAt | src/sentinelpi/detectors/adaptive.py:98-109 | the sweep at the ceiling and the append are the model's |
| PortScan.UniqueAgrees | src/sentinelpi/detectors/port_scan_detector.py:131-134 | a deque short only of old entries counts the same ports as the last 500 probes |
| PortScan.JudgeIsDue | src/sentinelpi/detectors/port_scan_detector.py:122-142 | cooldown, threshold and trip recording agree with the reference after evictions |
| PortScan.DetectionRefinesHistory | src/sentinelpi/detectors/port_scan_detector.py:59-259 | whatever the schedule of polls, for probes handled in time order and at most a tick older than an earlier poll, scan and sweep alerts come exactly when history says: distinct counts reach base x multiplier and no alert for five minutes |
| PortScan.WindowLosesAtMost | src/sentinelpi/detectors/base.py:115-148 | for probes late by any amount and in any disorder: what a probe counts is in its history, and all of it but the oldest lag + disorder - 1 ticks of its window is counted |
| PortScan.LagRefinesHistory | src/sentinelpi/detectors/port_scan_detector.py:59-259 | agreement with history for probes in time order and any lag of at most one tick behind polls |
| PortScanAlerts.ScansAreApart | src/sentinelpi/detectors/port_scan_detector.py:122-142 | two port-scan alerts of one pair are at least five minutes apart |
| PortScanAlerts.SweepsAreApart | src/sentinelpi/detectors/port_scan_detector.py:197-220 | two host-sweep alerts of one source are at least five minutes apart |
| PortScanAlerts.AlertsHaveCauses | src/sentinelpi/detectors/port_scan_detector.py:91-220 | over every run, in any order, a port-scan alert has at least the configured number of ports, and a sweep at least 15 local hosts, probed in the minute that ends with its probe |
| PortScanLimits.EvictionInvisibleIff | src/sentinelpi/detectors/base.py:128-148 | over all runs in which probes are at most lag ticks older than an earlier poll and disorder ticks older than an earlier probe, the alerts are those of the same detector without polls if and only if lag + disorder <= 1; for port thresholds of at least two within the reach of 500 probes (499 if there is disorder) |
| PortScanEviction.EvictionsAreUnseen | src/sentinelpi/detectors/base.py:115-148 | the sufficient half for every threshold and configuration |
| PortScanLimits.HistoryAgreesIff | src/sentinelpi/detectors/base.py:115-148 | for probes in time order, agreement with the reference that forgets nothing holds if and only if the lag is at most one tick |
| PortScanLimits.DisorderIsMissed | src/sentinelpi/detectors/base.py:128-148 | for every such threshold and every disorder: a late repeat is the last entry of the deque, and the poll drops ports that still count; from two ticks of disorder on, no probe of the run is older than the poll |
| PortScanLimits.LateProbeIsMissed | src/sentinelpi/detectors/port_scan_detector.py:71-87 | the failing run for every such threshold: all ports but one, a poll whose eviction reads the clock just over a minute later, the last port stamped before it, queued or taken by the poll itself |
| PortScanLimits.CanAlertIff | src/sentinelpi/detectors/port_scan_detector.py:91-142 | some traffic raises a port-scan alert if and only if threshold times the multiplier of a host without trips is at most 500, the deque's length |
| PortScanDetector.PortScanDetector.RecordConnection | src/sentinelpi/detectors/port_scan_detector.py:91-120 | tables, cooldowns and trips updated in place take the model's step |
| PortScanDetector.PortScanDetector.EvictAt | src/sentinelpi/detectors/base.py:115-148 | the three eviction loops take the model's step |
| PortScanDetector.EvictIdle | src/sentinelpi/detectors/base.py:129-148 | exactly the keys with empty or idle deques go |

## Left out

- Sockets, threads, subprocesses, scapy, Flask, SQL text, files and logging: they appear as nondeterministic inputs, a durable map with atomic and possibly failing writes, and commands that succeed or change nothing.
- IPFIX variable-length elements (length 65535, section 7 of RFC 7011) and template withdrawal (field count 0, section 8.1 of RFC 7011): the code treats the one as a fixed length and ignores the other; the decoder and parser contracts cover this, the encoder does not produce them.
- FlowEncoder.WalkUndoesEncode: data records are of fixed-length fields, and set padding is shorter than a record, because the encoder follows the parser's supported subset.
- `_proto_name`, address text, `_to_event`, `parse_conntrack_line` and `parse_filterlog_line`: table look-ups, formatting and regular expressions; parsed lines are inputs, protocols stay numbers and addresses bytes.
- FlowSources.TailIsScheduleFree: characters stand for bytes; multi-byte text and decoding errors are not modelled. A truncated file that has grown past the old offset is not noticed by the code and not covered.
- Interleaved approvals of one action id: `approve` and `reject` are atomic calls that return, so at-most-once is not claimed for two approvals racing between look-up and pop.
- ResponderManager.Manager: actions are values in one map shared by id instead of shared objects; error and description texts, alert ids, command lines and the JSON of rows are not modelled.
- iptables rules carry no marker of their action, so rollback is modelled for nftables; other responders and webhooks appear as a success flag.
- `FirewallResponder.can_handle`, `plan` and address selection: one-branch checks; a plan is an input of `handle`.
- Mutes and acknowledgements: a mute is not carried across a restart by `get_recent_dedup_keys`, and no claim is made for it.
- Enrichment, suspicion scores, notifiers and the responder call inside `_handle_alert`, and the quiet-hours clock: quiet hours are an input, the others do not touch the funnel's state.
- AlertFunnel.SpacingIff: alert timestamps are the clock at handling and do not go back.
- AlertFunnel.RunSpaced: pairs of which the funnel could not know are left out; AlertFunnel.KnownAreApart is about all pairs, and AlertFunnel.UnansweredBreach shows what happens to the others.
- PortScan.DetectionRefinesHistory: probes in time order, a tick behind polls at most; PortScan.WindowLosesAtMost bounds what other runs lose. The three evictions of a poll share one clock reading.
- PortScanLimits.EvictionInvisibleIff: port thresholds of one, or beyond the reach of the deque, are covered by the sufficient half only.
- PortScan: alert keys are pairs of addresses; as text, `port_scan:<src>:<dst>` can be the same for two pairs of abbreviated IPv6 addresses.
- Incident and alert prose, `explain` evidence, confidence values and severities of scans: they only format or branch once.
- ECS and OTLP documents: key-by-key renderings of the same fields.
- Floating-point rounding: statistics are exact reals and the square root is any function with non-negative values whose square is its argument; z-scores are left out as one-line uses of them.
- Baseline destinations, domains, listening ports and the learning epoch: sets that only grow and one stored timestamp.
- BeaconDetector.DetectorRefinesHistory: a connection is handled within 30 minutes of its timestamp; a flow's history starts anew when the idle clean-up clears it. Address and port filters are an input.
- Adaptive.RunMultiplier: call times do not go back; the number of keys can exceed its ceiling when all are live, and no bound is claimed.
- Trusted devices, device tracking and its reload, `alert_from_dict`, configuration loading, dashboards, preflight, watchdog, cluster forwarding and the command line.
