# Kernloom enforcement: a verified model

This project models five parts of Kernloom and proves what they promise:

* **The XDP shield.** The token bucket is computed twice, on 64-bit words and on unbounded integers. The
  model says exactly when the two agree and how many packets a bucket admits over any sequence of calls.
  The packet program around it is one step over parsed packets, maps and counters.
* **The action broker.** Leases live in a durable journal and a PEP remembers one fencing token per target.
  `LeaseJournal` is the protocol as a machine in which any store or PEP call may fail. `ActionBroker` holds
  the broker, its store and its PEP as objects updated in place, each method proved to be a step of that
  machine. Relationship targets, which a revert decodes out of lease metadata, belong here too.
* **The detection engine.** Sample windows compacted in place, a refractory period and a table of active
  detections, against a brute-force reading of the event history.
* **Baselines.** Weighted means, variances, peaks and promotion, bounded tables, dirty tracking and the row
  codec that carries source profiles through the baseline table.
* **Two gatekeepers.** The relationship learner with its freeze, and the policy resolver.

## How to read it

Operations that change state are methods of classes. Each is tied to a function on values, and the laws are
lemmas about those functions and about runs of them. For each part a module says what the operations mean
without these functions, in terms of the raw inputs, histories and fields: `XdpVerdicts`, `XdpCounters`,
`BrokerAnswers`, `TargetMeaning`, `DetectionMeaning`, `MetricHistory`, `EngineHistory`, `SourceHistory`,
`RowContents`, `LearnerHistory` and `PolicySubjects`. The modules:

| part | modules |
|---|---|
| shared | `Text` (strings), `Reals` |
| shield | `TokenBucket`, `TokenBucketBounds`, `TokenBucketWindows`, `XdpShield`, `XdpRuns`, `XdpVerdicts`, `XdpCounters`, `XdpWindows` |
| broker | `LeaseTargets`, `LeaseJournal`, `BrokerInvariants`, `BrokerRows`, `BrokerCoverage`, `BrokerFencing`, `BrokerEnforcement`, `BrokerGates`, `BrokerGap`, `ActionBroker`, `BrokerAnswers`, `BrokerFailures` |
| relationships | `RelationshipKey`, `RelationshipTarget`, `RelationshipRuns`, `TargetMeaning` |
| detection | `Detection`, `DetectionRuns`, `DetectionMeaning` |
| baselines | `MetricBaseline`, `BaselineEngine`, `SourceBaseline`, `SourceBaselineRuns`, `BaselineRows`, `BaselineRestart`, `MetricHistory`, `EngineHistory`, `SourceHistory`, `RowContents` |
| gatekeepers | `RelationshipLearner`, `LearnerHistory`, `PolicyResolver`, `PolicySubjects` |

`dafny verify dfyconfig.toml` checks everything.

Fixed sets of names the code tells apart (actions, levels, states, metrics, settings) are constructors; other
names stay text. `Other` and `OtherLevel` stand for the remaining names only: a value such as
`Other("enforce.traffic.drop")`, which no text in the code can be, is one name more and obeys the same laws. Clocks, random lease ids, which calls fail, which entries the kernel evicts, the age of a
profile, the table of printable characters, the square root of a variance and the guard's verdicts are
parameters. Times are integers, and 0 stands for the zero time wherever the code asks for it.

## Where the code differs from what it promises

* The refill shortcut is called overflow-safe. It is so exactly for `burst * 10^9 + rate - 1 < 2^64`
  (`TokenBucket.OverflowFreeIff`). Above one packet a nanosecond the bucket usually limits nothing
  (`TokenBucketBounds.LimitsIff`).
* A lease's revert is meant never to undo a newer enforcement. It never undoes the one in force, but once the
  newest of three equal leases has been reverted the PEP has forgotten the target's token, and the next
  expiry passes although a newer lease is still active (`BrokerInvariants.FencingGapIff`,
  `BrokerGap.FencingGapReachable`).
* The relationship PEP denies the relationship its caller hands over, while the lease is filed under the
  resolution's target. A revert allows exactly the relationship that target decodes to, so it undoes the apply
  exactly when the two agree (`BrokerEnforcement.RevertLiftsIff`, `RelationshipRuns.RevertAllowsDeniedIff`).
* A lowered renewal cap does not reach back: a lease may keep more renewals than the cap allows now. Each
  renewal is within the cap of its own moment (`BrokerRows.RenewalsCapped`).
* A restart is meant to give sources their baselines back. The table keeps the creation time of a row it
  updates, so a source that was evicted and learned again comes back with its older first-seen time
  (`BaselineRestart.RestartRestores` says exactly when, `BaselineRestart.RelearnedIsOlder` is such a run), and
  only as many sources come back as the cache has room for.
* Restoring a profile without a first-seen time changes it without marking it for persistence
  (`SourceBaselineRuns.RestoreBreaksIff`, `SourceBaselineRuns.DatelessIsLost`).
* Suspicious updates are meant not to poison what was learned. They never do within a profile
  (`MetricBaseline.SuspiciousErased`), but a suspicious new key evicts a learned profile from a full table
  (`BaselineEngine.SuspiciousSparesIff`).
* A sustained detection looks for a sample just outside the window, but the previous observation may have
  dropped it already (`DetectionRuns.FiresIff` says which samples count, `DetectionRuns.SustainedMisses` is a
  missed one).
* The rate-limit ceiling looks at the level only (`PolicyResolver.CeilingIsByLevel`,
  `PolicyResolver.DenyPassesCeiling`).
* Relationships a learning guard marks as evidence-only are stored and promoted like any other
  (`RelationshipLearner.VerdictIgnored`, `RelationshipLearner.EvidenceIsPromoted`).

## Model

| member | source | states |
|---|---|---|
| `TokenBucket.RlState.AllowAndUpdate` | shield/bpf/xdp_kernloom_shield.bpf.c:549-586 | one locked bucket call on 64-bit words leaves exactly the state and verdict of the wrapping word computation; an inactive configuration admits and touches nothing |
| `TokenBucket.RefillCases` | shield/bpf/xdp_kernloom_shield.bpf.c:559-576 | what each refill guarantees despite its roundings: nothing changes, or a full refill that the elapsed time has paid for, or a partial one bracketed on both sides in tokens and in time |
| `TokenBucket.CallExactly` | shield/bpf/xdp_kernloom_shield.bpf.c:549-586 | what every call finds and leaves: a full bucket or less than a token's time changes nothing, time for all that is missing fills it and moves the mark to the clock, in between the whole tokens earned are added and the mark moves by their whole cost; the packet is refused exactly when nothing is there |
| `TokenBucket.WordCallExactly` | shield/bpf/xdp_kernloom_shield.bpf.c:549-586 | the same for a call on 64-bit words, within the bound or beyond it: what wraps is each product, the sum of tokens and the new mark, and the refill time needs one reduction only |
| `TokenBucket.StepKeepsRange` | shield/bpf/xdp_kernloom_shield.bpf.c:559-585 | the clock mark never moves back nor past the latest clock, tokens stay below the burst between calls, and the clamp at the burst never fires |
| `TokenBucket.OverflowFreeIff` | shield/bpf/xdp_kernloom_shield.bpf.c:559-585 | words and unbounded integers agree on every state and clock exactly when `burst * 10^9 + rate - 1 < 2^64` |
| `TokenBucket.WordNeedTooSmall` | shield/bpf/xdp_kernloom_shield.bpf.c:562-566 | beyond that bound the wrapped refill time comes out too small: an empty bucket can refill for free |
| `TokenBucketBounds.WordRunAgrees` | shield/bpf/xdp_kernloom_shield.bpf.c:549-586 | for a configuration that fits, whole runs on words and on integers admit the same packets |
| `TokenBucketBounds.AdmittedPaid` | shield/bpf/xdp_kernloom_shield.bpf.c:549-586 | over any call sequence, clocks in any order, every packet beyond the burst has been paid for by elapsed time at the cost of a token |
| `TokenBucketBounds.RateUpperBound` | shield/bpf/xdp_kernloom_shield.bpf.c:549-586 | at rates up to 10^9 at most `burst + G` packets are admitted, with `G * (10^9 - rate + 1) <= rate * T` |
| `TokenBucketBounds.ExactRateUpperBound` | shield/bpf/xdp_kernloom_shield.bpf.c:549-586 | when no rounding loss occurs (rate divides 10^9 among others) the bound is the nominal rate |
| `TokenBucketBounds.LimitsIff` | shield/bpf/xdp_kernloom_shield.bpf.c:549-586 | the bucket has any finite bound over every time span exactly when a granted token costs time: rates up to 10^9, multiples of it, and bursts a nanosecond earns |
| `TokenBucketBounds.RateLowerBound` | shield/bpf/xdp_kernloom_shield.bpf.c:559-585 | on nondecreasing clocks the integer bucket never admits fewer packets than the ideal real-valued bucket |
| `TokenBucketBounds.SpacedPacketAdmitted` | shield/bpf/xdp_kernloom_shield.bpf.c:559-585 | a packet that arrives `ceil(10^9 / rate)` ns or more after its predecessor is never dropped |
| `TokenBucketWindows.WindowPaid` | shield/bpf/xdp_kernloom_shield.bpf.c:549-586 | from any bucket at all, what the calls of a window admit is paid for by the tokens in excess of the burst, one burst and the length of the window |
| `TokenBucketWindows.WindowUpperBound` | shield/bpf/xdp_kernloom_shield.bpf.c:549-586 | in any window of any run, whatever happened before it: admissions times `10^9 - rate + 1` are at most `burst * 10^9 + rate * T`, at rates up to 10^9 |
| `TokenBucketWindows.ExactWindowUpperBound` | shield/bpf/xdp_kernloom_shield.bpf.c:549-586 | without rounding loss, any window admits at most a burst and the nominal rate times its length |
| `XdpShield.Shield.LimitSource` | shield/bpf/xdp_kernloom_shield.bpf.c:941-961 | the source bucket call: a miss creates the bucket and consumes the packet's token, a hit runs the token bucket |
| `XdpShield.Shield.LimitEdge` | shield/bpf/xdp_kernloom_shield.bpf.c:1003-1021 | the same for the edge bucket |
| `XdpShield.Shield.Check` | shield/bpf/xdp_kernloom_shield.bpf.c:922-1024 | the allow, deny, source-limit and edge stages in program order give exactly the specified decision, and at most one drop flag is set; `XdpVerdicts` says which decision that is for which packet |
| `XdpShield.Shield.RecordSource` | shield/bpf/xdp_kernloom_shield.bpf.c:652-725 | the per-source entry after a packet, and the two result bits |
| `XdpShield.Shield.Process` | shield/bpf/xdp_kernloom_shield.bpf.c:830-1060 | one packet through the whole program: all maps and counters afterwards, and dropped exactly when the verdict is not a pass; the verdict is the one of `XdpVerdicts.PassIff` and its companions, the counters those of `XdpCounters` |
| `XdpVerdicts.PassIff` | shield/bpf/xdp_kernloom_shield.bpf.c:927-1022 | a packet passes exactly when it is not IP, or its lists let it through, the limit in force on its source (an override with both fields set, else such a default) admits it and, for an IPv4 packet with a port under an edge mode, the mode's edge list and the edge's limit admit it |
| `XdpVerdicts.DropAllowIff` | shield/bpf/xdp_kernloom_shield.bpf.c:927-933 | it is dropped by the allow list exactly when that is enforced and lacks its source |
| `XdpVerdicts.DropDenyIff` | shield/bpf/xdp_kernloom_shield.bpf.c:930-999 | it is dropped as denied exactly when the allow list lets it through and its source is denied or, past the source's limit, its edge's list refuses it |
| `XdpVerdicts.DropRlIff` | shield/bpf/xdp_kernloom_shield.bpf.c:942-1022 | it is dropped by a limit exactly when its lists let it through and the source's limit refuses it or, past source and edge list, the edge's limit does |
| `XdpVerdicts.SourceCharged` | shield/bpf/xdp_kernloom_shield.bpf.c:942-960 | a packet charges its source's bucket one call of the limit in force exactly when its lists let it through, and no packet charges another's |
| `XdpVerdicts.EdgeCharged` | shield/bpf/xdp_kernloom_shield.bpf.c:969-1012 | and its edge's bucket exactly when it got past its source and the edge list and the edge has an active limit |
| `XdpCounters.PacketCounted` | shield/bpf/xdp_kernloom_shield.bpf.c:423-427 | each packet is counted on its own CPU with its length, family, protocol, flags and verdict, and on no other CPU |
| `XdpCounters.ListsCounted` | shield/bpf/xdp_kernloom_shield.bpf.c:927-999 | allow hits count the packets an enforced allow list holds, deny hits those dropped as denied |
| `XdpCounters.NewsCounted` | shield/bpf/xdp_kernloom_shield.bpf.c:652-725 | new sources and port changes are counted against the entries left by the kernel's evictions |
| `XdpCounters.LimitersCounted` | shield/bpf/xdp_kernloom_shield.bpf.c:942-1012 | limiter hits count every active limit a packet reaches, its source's and its edge's |
| `XdpCounters.LengthCounted` | shield/bpf/xdp_kernloom_shield.bpf.c:479-494 | a packet's length is added to the one bin that holds it, and to no other |
| `XdpCounters.EntryTells` | shield/bpf/xdp_kernloom_shield.bpf.c:652-725 | over any run a source has an entry exactly when it sent a packet since its last eviction, and the entry tells the counts, bytes, flags, verdicts, times and ports of exactly those packets |
| `XdpRuns.PacketConservation` | shield/bpf/xdp_kernloom_shield.bpf.c:423-427 | over any packet sequence packets = pass + the three drop counters in the totals and in every live source entry, the length histogram sums to the totals, and live entries of a family never exceed its counter |
| `XdpRuns.CountersTallyVerdicts` | shield/bpf/xdp_kernloom_shield.bpf.c:1014-1022 | each verdict counter of each CPU is the number of packets given that verdict there |
| `XdpRuns.PassedLists` | shield/bpf/xdp_kernloom_shield.bpf.c:922-1000 | a passed packet satisfied every enforced list, in allow mode including the edge list whatever the maps hold |
| `XdpRuns.SourceBucketAfter` | shield/bpf/xdp_kernloom_shield.bpf.c:937-961 | a packet the lists drop costs no token, no packet touches another source's bucket, and a limited one makes exactly one call of its own bucket and passes only if admitted |
| `XdpRuns.SourceRateLimit` | shield/bpf/xdp_kernloom_shield.bpf.c:830-1060 | end to end: of a source limited by one configuration whenever it reaches its limiter, no more packets pass the program than burst and elapsed time pay for, whatever CPUs, other traffic, their clocks and list changes do |
| `XdpRuns.EdgeBucketAfter` | shield/bpf/xdp_kernloom_shield.bpf.c:973-1024 | a packet on a limited edge is dropped before the limiter or makes exactly one call of the edge's bucket and passes only if admitted; no other packet touches it |
| `XdpRuns.EdgeRateLimit` | shield/bpf/xdp_kernloom_shield.bpf.c:830-1060 | the same end-to-end bound for the packets that reach a limited edge |
| `XdpWindows.SourceWindowLimit` | shield/bpf/xdp_kernloom_shield.bpf.c:830-1060 | the same over any stretch of packets from any state of the maps, buckets left over from a larger burst included |
| `XdpWindows.SourceWindowOfRun` | shield/bpf/xdp_kernloom_shield.bpf.c:830-1060 | so in every window of a run under one configuration a source gets at most a burst and what the window's length pays for |
| `XdpWindows.EdgeWindowLimit` | shield/bpf/xdp_kernloom_shield.bpf.c:830-1060 | for an edge, over any stretch of packets from any state of the maps: what passes on it is paid for by the tokens its bucket holds in excess of the burst, one burst and the length of the stretch |
| `XdpWindows.EdgeWindowOfRun` | shield/bpf/xdp_kernloom_shield.bpf.c:830-1060 | so in every window of a run under one configuration an edge passes at most a burst and what the window's length pays for |
| `LeaseTargets.WriteMetadata` | iq/internal/actionbroker/broker.go:124-142 | the two filling loops produce the fixed, attribute and parameter entries, in any iteration order |
| `LeaseTargets.CopyPrefixed` | iq/internal/actionbroker/broker.go:131-138 | one filling loop: the source map under a key prefix, over what was there |
| `LeaseTargets.CollectStripped` | iq/internal/actionbroker/broker.go:620-625 | the decoding loop collects exactly the prefixed entries |
| `LeaseTargets.DecodeTarget` | iq/internal/actionbroker/broker.go:609-630 | decoding a lease's target, with the fallback to the target string |
| `LeaseTargets.TargetSurvivesIff` | iq/internal/actionbroker/broker.go:602-630 | a lease gives back the target it was written for exactly when the granularity is set with a value, or neither part can be mistaken for a separator |
| `TargetMeaning.MetadataSays` | iq/internal/actionbroker/broker.go:124-142 | the metadata of a lease holds the request, the target and every attribute and parameter under its prefix, each under its own name |
| `TargetMeaning.LeaseSays` | iq/internal/actionbroker/broker.go:602-630 | a lease decodes to the granularity and value of its metadata or, if either is missing, to its target cut at the first colon, and without one to the whole target as value; its attributes are exactly those prefixed |
| `LeaseTargets.FencingKeyIsTarget` | iq/cmd/kliq/brokered_executor.go:608-617 | for every lease a broker writes, the fencing key is the lease's target string |
| `ActionBroker.LeaseStore.Upsert` | pkg/statestore/sqlite/action_leases.go:16-72 | insert or replace a row, unless the call fails |
| `ActionBroker.LeaseStore.UpdateStatus` | pkg/statestore/sqlite/action_leases.go:163-177 | only the status of an existing row changes, unless the call fails |
| `ActionBroker.LeaseStore.FindActive` | pkg/statestore/sqlite/action_leases.go:87-112 | the newest active row of a target, action and level |
| `ActionBroker.NewestActive` | pkg/statestore/sqlite/action_leases.go:95-101 | scanning the rows in any order finds the row that is last by expiry, application time and id |
| `ActionBroker.LeaseStore.List` | pkg/statestore/sqlite/action_leases.go:114-161 | each selected row once, in some order |
| `ActionBroker.FencedPep.KeyOf` | iq/cmd/kliq/brokered_executor.go:608-617 | the key under which a token is remembered |
| `ActionBroker.FencedPep.Begin` | iq/cmd/kliq/brokered_executor.go:528-531 | sets what the next apply enforces |
| `ActionBroker.FencedPep.Finish` | iq/cmd/kliq/brokered_executor.go:533-538 | and forgets it again |
| `ActionBroker.FencedPep.Apply` | iq/cmd/kliq/brokered_executor.go:540-569 | a successful apply enforces what is active and records the lease's token for its target; with nothing active it fails |
| `ActionBroker.FencedPep.CurrentFencingToken` | iq/cmd/kliq/brokered_executor.go:471-478 | the remembered token, or the lease's own when none is remembered |
| `ActionBroker.FencedPep.Revert` | iq/cmd/kliq/brokered_executor.go:580-592 | a successful revert stops enforcing what the lease decodes to and forgets the token only if it is the lease's own; an undecodable lease fails |
| `ActionBroker.RuntimeActions` | iq/internal/actionbroker/broker.go:341-360 | the requested action first, then the ordered ones, none twice |
| `ActionBroker.ExecutionMetadataChanged` | iq/internal/actionbroker/broker.go:483-506 | true exactly when some execution parameter differs on either side |
| `ActionBroker.Broker.HasActiveLease` | iq/internal/actionbroker/broker.go:256-265 | the level loop, as the machine's gate |
| `ActionBroker.Broker.PrerequisitesActive` | iq/internal/actionbroker/broker.go:236-254 | every allowance that names a previous action finds one active |
| `ActionBroker.Broker.StrongestActive` | iq/internal/actionbroker/broker.go:290-310 | the nested loops return the greatest strength among the active leases found |
| `ActionBroker.Broker.StrongerActive` | iq/internal/actionbroker/broker.go:275-288 | closed exactly when a stronger lease is active |
| `ActionBroker.Broker.RenewActiveLease` | iq/internal/actionbroker/broker.go:379-426 | renewal: retire on changed execution parameters or a foreign token, cap, or extend; `BrokerAnswers.RenewedMeans` says what a renewal leaves |
| `ActionBroker.Broker.SupersedeWeakerLeases` | iq/internal/actionbroker/broker.go:312-339 | the nested loops retire exactly the strictly weaker leases found, up to the first error |
| `ActionBroker.Broker.RetireIfWeaker` | iq/internal/actionbroker/broker.go:319-335 | one step of those loops |
| `ActionBroker.Broker.GrantLease` | iq/internal/actionbroker/broker.go:181-233 | journal, enforce, activate, retire weaker leases, with every failure exit |
| `ActionBroker.Broker.Apply` | iq/internal/actionbroker/broker.go:100-234 | the whole call is one step of the lease machine on the planned resolution; `BrokerAnswers` says which answer it gives and what each leaves, field by field |
| `ActionBroker.Broker.ApplyRelationship` | iq/cmd/kliq/brokered_executor.go:177-233 | only an allowed blocking resolution with a TTL reaches the broker, with the given relationship as what is enforced, and nothing is active afterwards |
| `ActionBroker.Broker.UpdateAutonomyConstraints` | iq/internal/actionbroker/broker.go:89-96 | replaces the renewal cap and the allowances, and nothing else |
| `ActionBroker.Broker.Revert` | iq/internal/actionbroker/broker.go:553-600 | one revert is one step of the machine |
| `ActionBroker.Broker.RevertExpired` | iq/internal/actionbroker/broker.go:509-523 | the expiry sweep over the listed rows, up to the first error |
| `ActionBroker.Broker.ReconcilePending` | iq/internal/actionbroker/broker.go:528-549 | rows a crash left pending are failed, up to the first error |
| `BrokerInvariants.ApplyKeeps` | iq/internal/actionbroker/broker.go:100-234 | every apply, whatever calls fail, keeps the journal invariant |
| `BrokerInvariants.RevertKeeps` | iq/internal/actionbroker/broker.go:553-600 | so does every revert, even of an outdated copy of a row |
| `BrokerInvariants.JournalInvariant` | iq/internal/actionbroker/broker.go:154-228 | in every reachable state, under every failure pattern and with autonomy limits that may change before any apply, at most one active lease per target, action and level, and the PEP remembers exactly the token of the lease in force on each target |
| `BrokerRows.ApplyAnswers` | iq/internal/actionbroker/broker.go:100-234 | what each answer means: a granted lease is active to its TTL with its token remembered, a renewal only extends the active lease of that key, caps, skips and denials change nothing |
| `BrokerRows.RenewalsCapped` | iq/internal/actionbroker/broker.go:407-410 | in every reachable state one more operation leaves the renewals of each lease as they were, or renews it once, within the cap in force at that apply |
| `BrokerRows.RowsFromApplies` | iq/internal/actionbroker/broker.go:100-234 | what holds of every lease a run's resolutions create or renew holds of every row of every reachable journal |
| `BrokerAnswers.RequestSays` | iq/internal/actionbroker/broker.go:100-142 | what the broker asks for is the authorized decision, action, level and TTL on the target's text, with the request, the target and its parameters as metadata |
| `BrokerAnswers.RenewedMeans` | iq/internal/actionbroker/broker.go:411-426 | after a renewal the lease is active for a full TTL from now under the new decision and metadata, with one renewal more; nothing else about it and no other lease, token or enforcement has changed |
| `BrokerAnswers.GrantedMeans` | iq/internal/actionbroker/broker.go:154-233 | a granted lease is new, active from now for its TTL, with the requested decision, target, action, level and metadata, no renewals and its own token, which its target remembers; what was handed over is enforced, and of other leases at most the status changed |
| `BrokerAnswers.SkippedExactly` | iq/internal/actionbroker/broker.go:236-310 | a request that needs a lease is skipped exactly when an allowance for its action wants an action that is not active on the target, or an active lease there outweighs it; then nothing changes |
| `BrokerAnswers.AnswersWithStanding` | iq/internal/actionbroker/broker.go:379-426 | when nothing holds it back and no call fails, a request with an active lease of its own renews it, unless execution parameters differ or another lease took the target (then a new one is granted) or its renewals are used up |
| `BrokerAnswers.AnswersWithoutStanding` | iq/internal/actionbroker/broker.go:154-233 | and one without is granted |
| `BrokerAnswers.GrantRetires` | iq/internal/actionbroker/broker.go:312-339 | a grant makes the request's own earlier lease superseded or a conflict, the lighter ones on its target superseded, and changes no other status |
| `BrokerAnswers.FailedGrant` | iq/internal/actionbroker/broker.go:189-203 | a grant the PEP cannot serve leaves its journaled lease failed, and no token, enforcement or other lease changed |
| `BrokerFailures.ErrorIff` | iq/internal/actionbroker/broker.go:100-234 | under every failure pattern an apply answers with an error exactly when one of its own calls on the store or the PEP failed, or it had journaled a lease with nothing to enforce |
| `BrokerFailures.RefusalsAreReal` | iq/internal/actionbroker/broker.go:100-310 | whatever calls fail, a skipped request is held back, and a granted, renewed or capped one is not |
| `BrokerAnswers.RevertMeans` | iq/internal/actionbroker/broker.go:553-600 | a revert fails the lease without an answer from the PEP, marks a conflict under a foreign token, and otherwise lifts what the lease decodes to and forgets its token, or fails it |
| `BrokerAnswers.SweepMeans` | iq/internal/actionbroker/broker.go:509-600 | after a sweep every expired active lease is reverted, or a conflict if its target is held by another lease the sweep had not reverted before; every other lease is as it was |
| `BrokerAnswers.ReconcileMeans` | iq/internal/actionbroker/broker.go:528-549 | reconciliation fails every pending lease and touches no other |
| `BrokerFailures.ReconcileErrorIff` | iq/internal/actionbroker/broker.go:528-549 | and answers with an error exactly when one of its calls failed |
| `BrokerAnswers.LookupIsNewest` | pkg/statestore/sqlite/action_leases.go:87-112 | what a lookup finds is the match that is last by expiry, then application time, then identifier |
| `BrokerGates.SkippedIff` | iq/internal/actionbroker/broker.go:236-310 | an apply is skipped exactly when a required action is not active on the target or a stronger lease is |
| `BrokerGates.HasActiveIff` | iq/internal/actionbroker/broker.go:256-265 | the level loop finds an active lease exactly when there is one |
| `BrokerInvariants.HolderIsInForce` | iq/cmd/kliq/brokered_executor.go:498-511 | the remembered token belongs to the latest application not reverted since, read off the history alone |
| `BrokerInvariants.RevertIsFenced` | iq/internal/actionbroker/broker.go:553-591 | a revert reaches the PEP exactly when no other lease is in force on the target; otherwise it only marks a conflict |
| `BrokerFencing.RevertsNeverUndoNewer` | iq/internal/actionbroker/broker.go:509-600 | at every PEP revert in the history of every run, those inside a sweep included, no other lease is in force on that target, whatever calls fail |
| `BrokerFencing.AlwaysFenced` | iq/internal/actionbroker/broker.go:509-600 | the same on the fold: the holder before each PEP revert is nobody or the reverted lease |
| `BrokerInvariants.FencingSafety` | iq/internal/actionbroker/broker.go:553-591 | a revert of any row issued between two operations of a run, outside the sweeps, never undoes the enforcement of another lease in force either |
| `BrokerInvariants.FencingGapIff` | iq/cmd/kliq/brokered_executor.go:471-511 | the stronger reading, protecting every newer active lease, fails exactly when the PEP remembers no token for the target |
| `BrokerGap.FencingGapReachable` | iq/cmd/kliq/brokered_executor.go:471-511 | that case is reachable on every target with no failing call: three equal leases, the newest expiring first |
| `BrokerCoverage.EqualStrengthInvariant` | iq/internal/actionbroker/broker.go:275-377 | with a reliable store and the ordered actions, all active leases on a target have equal strength, whatever the PEP does |
| `BrokerCoverage.TtlCoverage` | iq/internal/actionbroker/broker.go:165-233 | when no call fails and every apply has something to enforce that its lease decodes, whatever is in force on a target belongs to an active lease on it, whose token the PEP remembers |
| `BrokerCoverage.SweepLeavesUnexpired` | iq/internal/actionbroker/broker.go:509-600 | and right after an expiry sweep that lease expires strictly later |
| `BrokerCoverage.SupersedeEffect` | iq/internal/actionbroker/broker.go:312-339 | the superseding scan changes the status of exactly the weaker rows it visits |
| `BrokerCoverage.StrongestBounds` | iq/internal/actionbroker/broker.go:290-310 | the scan's result is an upper bound of every active lease it visits |
| `BrokerEnforcement.RevertLiftsIff` | iq/cmd/kliq/brokered_executor.go:540-592 | enforcing something new under a lease and reverting that lease restores the backend exactly when the lease decodes to what was enforced |
| `BrokerEnforcement.EnforcedIsHeld` | iq/cmd/kliq/brokered_executor.go:540-617 | if every apply enforces what its target stands for and its lease decodes, then in every reachable state, whatever calls fail, the backend enforces exactly what the targets with a holder stand for |
| `BrokerEnforcement.EnforcedIsCovered` | iq/cmd/kliq/brokered_executor.go:540-617 | and if no call fails, everything the backend enforces belongs to an active lease that decodes to it |
| `RelationshipKey.WriteCanonical` | pkg/adapterruntime/runtime.go:237-253 | collecting, sorting and appending in place yields the canonical text, independent of iteration order |
| `RelationshipKey.SortStrings` | pkg/adapterruntime/runtime.go:247 | ascending, with the same elements |
| `RelationshipKey.QuoteRoundTrip` | pkg/adapterruntime/runtime.go:238-250 | unquoting a quoted text gives the text back and stops exactly at its end, for any table of printable characters |
| `RelationshipKey.AscendingUnique` | pkg/adapterruntime/runtime.go:243-247 | there is only one ascending order of a key set |
| `RelationshipKey.CanonicalInjective` | pkg/adapterruntime/runtime.go:237-253 | two keys have the same canonical text exactly when subject, target and dimensions are equal |
| `TargetMeaning.PlainCanonical` | pkg/adapterruntime/runtime.go:237-253 | the canonical text of a key that needs no escapes is its subject, its target and its dimensions in code-point order, each named and quoted, between bars |
| `TargetMeaning.EscapeSays` | pkg/adapterruntime/runtime.go:238-250 | quotes and backslashes are escaped by a backslash, control characters by their letter, and other unprintable ones by their code in two, four or eight hexadecimal digits |
| `RelationshipTarget.FindTargetId` | iq/cmd/kliq/relationship_target.go:195-207 | the first non-blank accepted attribute |
| `RelationshipTarget.CollectDimensions` | iq/cmd/kliq/relationship_target.go:209-230 | the named, non-blank dimensions, trimmed |
| `RelationshipTarget.WriteProposalAttributes` | iq/cmd/kliq/relationship_target.go:232-243 | the attributes that describe a key |
| `RelationshipTarget.TargetFromAttributes` | iq/cmd/kliq/relationship_target.go:152-178 | decode attributes into key and proposal, refusing blank subjects and empty keys |
| `RelationshipTarget.TargetFromActionTarget` | iq/cmd/kliq/relationship_target.go:180-193 | decode an action target |
| `TargetMeaning.DecodesExactly` | iq/cmd/kliq/relationship_target.go:152-230 | attributes decode to a key exactly when they say it: a subject, the target under the first accepted name that is not blank, and exactly the named dimensions that are not blank, all without padding, and a target or a dimension at least |
| `TargetMeaning.TargetNamesExactly` | iq/cmd/kliq/relationship_target.go:180-193 | an action target names a relationship exactly when it is of that granularity and its attributes say it for the subject, or without one for the source, that they give |
| `TargetMeaning.ProposalSays` | iq/cmd/kliq/relationship_target.go:152-243 | a decoded relationship's proposal gives its canonical text, subject, target if it has one, and dimensions, and no other attribute |
| `RelationshipTarget.ProposalRoundTripIff` | iq/cmd/kliq/relationship_target.go:180-243 | proposing a key and decoding it gives the key back exactly when it is trimmed, has a subject, a target or dimension, and no unnamed or empty dimension |
| `RelationshipTarget.ProposalNamesKey` | iq/cmd/kliq/relationship_target.go:152-243 | whatever attributes a relationship came from, its own proposal names the same key |
| `RelationshipTarget.RevertHitsApplied` | iq/cmd/kliq/brokered_executor.go:578-591 | for every relationship target, the key decoded from the lease written for it is the key decoded from the target itself |
| `RelationshipTarget.TargetStringIsKey` | iq/cmd/kliq/relationship_target.go:168-177 | two relationships share a target string, and so a fencing slot, exactly when they are the same |
| `RelationshipRuns.LeasesDecodeTheirTargets` | iq/cmd/kliq/brokered_executor.go:578-591 | in every reachable state each lease decodes, on revert, to what the relationship target of some apply on its target string decodes to, whatever that target is |
| `RelationshipRuns.RevertHitsAppliedInRuns` | iq/cmd/kliq/brokered_executor.go:578-591 | when the applies on one target string agree on the relationship, every lease on it decodes to that one |
| `RelationshipRuns.RevertAllowsDeniedIff` | iq/cmd/kliq/brokered_executor.go:540-592 | denying the relationship the caller hands over and reverting the lease restores the backend exactly when the resolution's target decodes to that relationship |
| `RelationshipRuns.FaithfulIff` | iq/cmd/kliq/brokered_executor.go:177-206 | an apply enforces what its target stands for exactly when that relationship is the decoded one and the target's value is its canonical text |
| `RelationshipRuns.ProposalIsFaithful` | iq/cmd/kliq/relationship_target.go:152-178 | an apply carrying the proposal the decoder builds for a relationship, handed over with it, is one of those |
| `RelationshipRuns.DeniedIsHeld` | iq/cmd/kliq/brokered_executor.go:540-617 | in every reachable state of such applies the backend denies a relationship exactly while its target holds a fencing token |
| `Detection.Compact` | iq/cmd/kliq/runtime_reaction.go:300-310 | in-place compaction keeps exactly the samples not before the cutoff, in order, and their total |
| `Detection.CoversWindow` | iq/cmd/kliq/runtime_reaction.go:1280-1299 | true exactly when a sample lies at the far edge of the window within the tolerance |
| `Detection.Tolerance` | iq/cmd/kliq/runtime_reaction.go:1301-1310 | between two and five seconds, a quarter of the window in between |
| `Detection.Measure` | iq/cmd/kliq/runtime_reaction.go:297-310 | append, look at the far edge, then compact |
| `Detection.ReactionEngine.ObserveDetection` | iq/cmd/kliq/runtime_reaction.go:282-358 | one observation: windows, fire times and active detections afterwards, and the event fired; `DetectionMeaning` reads both off the raw history |
| `Detection.ReactionEngine.DetectionFacts` | iq/cmd/kliq/runtime_reaction.go:188-219 | a facts query forgets exactly the expired detections and reports the source's remaining ones |
| `DetectionRuns.WindowIsHistory` | iq/cmd/kliq/runtime_reaction.go:297-311 | for one rule and a clock that never runs back, the stored window is every past sample of the key no older than the window |
| `DetectionRuns.FiresIff` | iq/cmd/kliq/runtime_reaction.go:298-331 | it fires exactly when that window's total reaches the threshold, no fire lies within the last window and, if sustained, a sample still kept by the previous observation lies at the far edge |
| `DetectionRuns.SustainedMisses` | iq/cmd/kliq/runtime_reaction.go:297-323 | a sustained rule observed at 10, 19 and 19.5 seconds stays silent although its window is full and a sample lies at the far edge |
| `DetectionRuns.FiresAfterAll` | iq/cmd/kliq/runtime_reaction.go:325-331 | a key fires at least the rule's window after every earlier fire of that key, whatever rules and clock order came before |
| `DetectionRuns.FiresApart` | iq/cmd/kliq/runtime_reaction.go:325-331 | so with one window length any two fires of a key are at least a window apart, even when the clock runs back |
| `DetectionRuns.InEffectIffRefractory` | iq/cmd/kliq/runtime_reaction.go:325-344 | the stored detection is unexpired exactly while the key cannot fire again |
| `DetectionRuns.OtherKeysUntouched` | iq/cmd/kliq/runtime_reaction.go:297-344 | an event for one key changes nothing observable about another |
| `DetectionMeaning.FiresExactly` | iq/cmd/kliq/runtime_reaction.go:282-331 | read off the raw history: an observation fires exactly when it matches and counts, the counts of its window (a minute unless named) reach the threshold (one unless named), every fire of the key is a window ago and, if sustained, an observation no later one dropped lies a quarter of the window, between two and five seconds, past the far edge at most |
| `DetectionMeaning.FiredSays` | iq/cmd/kliq/runtime_reaction.go:349-358 | a fire names the observation's key and source, the counts of its window, the window and the time |
| `DetectionMeaning.ObserveDecides` | iq/cmd/kliq/runtime_reaction.go:296-331 | the same condition on what is stored for the key, in any state and clock order |
| `DetectionMeaning.ObserveStores` | iq/cmd/kliq/runtime_reaction.go:296-311 | a counted observation leaves exactly the key's samples of its window stored |
| `DetectionMeaning.FactsExactly` | iq/cmd/kliq/runtime_reaction.go:188-219 | a facts query reports for a source exactly the keys whose latest fire came from it, is of a named rule and has not expired at this or an earlier query, whatever the clock did |
| `DetectionMeaning.FactsOnClock` | iq/cmd/kliq/runtime_reaction.go:188-219 | on a clock that never runs back: the keys whose latest fire lies within its window, came from that source and is of a named rule |
| `DetectionMeaning.FactSays` | iq/cmd/kliq/runtime_reaction.go:332-344 | a reported entry carries the rule, key, source and resource of that fire, its window in seconds, its time, and the time a window later |
| `DetectionMeaning.FactCounts` | iq/cmd/kliq/runtime_reaction.go:332-344 | and the counts observed in its window when it fired |
| `MetricBaseline.Normalize` | pkg/metricbaseline/engine.go:54-78 | settings that are not positive get positive defaults; usable ones are kept |
| `MetricBaseline.Profile.CheckPromotion` | pkg/metricbaseline/profile.go:106-114 | promotion in place |
| `MetricBaseline.Profile.RecomputeConfidence` | pkg/metricbaseline/profile.go:118-126 | the confidence field |
| `MetricBaseline.Profile.Apply` | pkg/metricbaseline/profile.go:60-104 | one update in place equals the update on values; `MetricHistory` gives the closed form of what updates amount to |
| `MetricBaseline.SuspiciousErased` | pkg/metricbaseline/profile.go:60-104 | deleting all suspicious updates from any run leaves mean, variance, learned count, promotion, peak and confidence unchanged |
| `MetricBaseline.RunIsSound` | pkg/metricbaseline/profile.go:60-114 | count = learned + suspicious, promoted exactly from the minimum count on, and at rates up to 1 the promoted mean is never above the peak and the variance never negative |
| `MetricBaseline.StatisticsInHull` | pkg/metricbaseline/profile.go:88-104 | mean and peak stay within any range of the learned values, the variance within its square |
| `MetricBaseline.PeakIsHighest` | pkg/metricbaseline/profile.go:99-114 | the peak is the greatest of the baseline at promotion and the values learned since |
| `MetricHistory.RunIsMean` | pkg/metricbaseline/profile.go:60-104 | closed form over any history: the mean is the weighted mean of the values learned, each weighing its own rate (whole for the first, slower from promotion on) less what every later value takes, the variance the same weighted mean of their squared distances from the mean before them |
| `MetricHistory.WeightsAddUp` | pkg/metricbaseline/profile.go:88-97 | those weights add up to one |
| `MetricHistory.RunAtOneRate` | pkg/metricbaseline/profile.go:80-97 | up to the promotion the first of n learned values weighs `(1 - alpha)^(n - 1)` and the i-th `alpha * (1 - alpha)^(n - i)` |
| `MetricHistory.RunCounts` | pkg/metricbaseline/profile.go:60-86 | counts, suspicious counts and first and last times are those of the history |
| `MetricHistory.RunPeak` | pkg/metricbaseline/profile.go:99-114 | the peak is the greatest of the weighted mean of the promoting values and the values learned since, and zero before |
| `MetricHistory.RunConfidence` | pkg/metricbaseline/profile.go:118-126 | six tenths for a hundred learned values and four for a day's age, each in proportion below that, from the second learned value on |
| `MetricBaseline.ScoreMeaning` | pkg/metricbaseline/score.go:51-60 | the score is a percentage, 0 exactly without a baseline or deviation, 100 exactly from the threshold number of sigmas |
| `MetricHistory.ScoreExactly` | pkg/metricbaseline/score.go:51-60 | below the threshold the score is the distance from the mean as a percentage of the threshold number of sigmas, with their floor, and from there on a hundred |
| `BaselineEngine.Engine.FindVictim` | pkg/metricbaseline/engine.go:153-171 | a profile no other is less trusted than |
| `BaselineEngine.Engine.Admit` | pkg/metricbaseline/engine.go:98-106 | a new key evicts only when the table is full |
| `BaselineEngine.Engine.Observe` | pkg/metricbaseline/engine.go:87-111 | one update leaves all other profiles alone, up to that eviction, and reports the updated profile |
| `BaselineEngine.Engine.Evict` | pkg/metricbaseline/engine.go:128-138 | exactly the profiles not updated since the cutoff go |
| `BaselineEngine.AlwaysBounded` | pkg/metricbaseline/engine.go:87-171 | in any run, whichever of several least trusted profiles is evicted, the engine stays within its limit and every profile is sound |
| `EngineHistory.ProfileIsItsHistory` | pkg/metricbaseline/engine.go:87-111 | over any run a stored profile is what a new one makes of exactly the observations of its key since the key was last absent |
| `EngineHistory.ProfileIsMean` | pkg/metricbaseline/engine.go:87-111 | so its mean and variance are the weighted ones of the values learned since |
| `EngineHistory.UpdateMakesRoom` | pkg/metricbaseline/engine.go:98-106 | an update changes no other profile, unless its key is new and the table full: then one that none is less trusted than goes |
| `BaselineEngine.SuspiciousSparesIff` | pkg/metricbaseline/engine.go:87-111 | a suspicious update leaves every profile in place with all it has learned exactly when its key is known or the table has room |
| `SourceBaseline.Normalize` | pkg/sourcebaseline/adapter.go:109-137 | settings that are not positive get positive defaults, and usable ones are kept |
| `SourceBaseline.Cache.Update` | pkg/sourcebaseline/adapter.go:157-226 | one observation in place |
| `SourceBaseline.Cache.RecordTrigger` | pkg/sourcebaseline/adapter.go:319-325 | the recorded trigger, dirty exactly when it changed |
| `SourceBaseline.Cache.EffectiveTrigger` | pkg/sourcebaseline/adapter.go:243-307 | the trigger in force and the cache afterwards |
| `SourceBaseline.TriggerRaisedIff` | pkg/sourcebaseline/adapter.go:243-307 | a positive global trigger is never lowered, and raised, to the margin, exactly for a source whose baseline is promoted and confident and has a larger margin |
| `SourceBaseline.TriggerMonotone` | pkg/sourcebaseline/adapter.go:243-307 | a larger global trigger never gives a smaller one in force |
| `SourceBaseline.TriggerReadTwice` | pkg/sourcebaseline/adapter.go:243-325 | reading a trigger again gives the same answer and marks nothing |
| `SourceBaseline.Cache.SnapshotDirty` | pkg/sourcebaseline/adapter.go:355-369 | exactly the live dirty profiles, none dirty afterwards |
| `SourceBaseline.Cache.Restore` | pkg/sourcebaseline/adapter.go:372-395 | snapshots are taken in order while they are newer and fit |
| `SourceBaseline.Cache.Evict` | pkg/sourcebaseline/adapter.go:399-411 | stale profiles go, with their dirty marks |
| `SourceHistory.ObservedMeans` | pkg/sourcebaseline/adapter.go:157-226 | an observation counts exactly when it is not suspicious, fast enough and of a known source or one with room; it marks and changes its own profile alone: each metric's average moves by its rate, promotion sets each peak to half as much again as the average, and later peaks only rise |
| `SourceHistory.SourceIsItsHistory` | pkg/sourcebaseline/adapter.go:157-226 | over any run without restores a profile has learned from exactly the observations counted since its source was last absent: each average is the weighted mean of their rates, its counts, times, promotion and confidence are theirs |
| `SourceHistory.TriggerMeans` | pkg/sourcebaseline/adapter.go:243-325 | a trigger read answers and records, for its metric alone, the larger of the global trigger and the trusted peak with its margin, or nothing without a positive global one, and marks the source exactly when that changed something |
| `SourceHistory.FlushMeans` | pkg/sourcebaseline/adapter.go:355-369 | a flush hands out exactly the marked live profiles as they are and leaves no marks |
| `SourceHistory.RestoreKeeps` | pkg/sourcebaseline/adapter.go:372-395 | whatever nothing newer is restored for stays, and no marks change |
| `SourceHistory.RestoreTakes` | pkg/sourcebaseline/adapter.go:372-395 | for every other source the first of its newest snapshots, before the first new source without room, is taken over, dated by its last sighting if it has no first one |
| `SourceHistory.RestoreCounts` | pkg/sourcebaseline/adapter.go:372-395 | the answer is the number of snapshots newer than the cache and all before them |
| `SourceHistory.EvictMeans` | pkg/sourcebaseline/adapter.go:399-411 | exactly the profiles last seen before the cutoff go, with their marks |
| `SourceBaselineRuns.AlwaysBounded` | pkg/sourcebaseline/adapter.go:157-411 | whatever happens, dirty sources are live and the cache stays within its limit |
| `SourceBaselineRuns.AlwaysSynced` | pkg/sourcebaseline/adapter.go:157-411 | unless a restored profile has a last-seen but no first-seen time, every clean profile is recorded as it is |
| `SourceBaselineRuns.IncrementalEqualsFull` | pkg/sourcebaseline/adapter.go:344-411 | replaying all dirty snapshots and restores, latest wins, gives every live source its current profile |
| `SourceBaselineRuns.RestoreBreaksIff` | pkg/sourcebaseline/adapter.go:372-395 | a restore breaks this exactly when it takes in, for a clean source, a profile with a last-seen but no first-seen time |
| `SourceBaselineRuns.DatelessIsLost` | pkg/sourcebaseline/adapter.go:372-395 | such a profile restored into an empty cache differs from what any later flush leaves recorded |
| `SourceBaselineRuns.TriggersNeverLowered` | pkg/sourcebaseline/adapter.go:243-411 | in any run, no profile, live or recorded, has a trigger in force below its recorded global one |
| `SourceBaselineRuns.AlwaysShaped` | pkg/sourcebaseline/adapter.go:177-223 | in any run of nonnegative rates windows = observations >= 1 and promoted peaks are never below the nonnegative averages |
| `BaselineRows.WriteRows` | iq/cmd/kliq/source_baseline_persistence.go:102-156 | four rows a named, observed source |
| `BaselineRows.CollectRows` | iq/cmd/kliq/source_baseline_persistence.go:158-222 | filling one profile a source, row by row |
| `BaselineRows.ReadRows` | iq/cmd/kliq/source_baseline_persistence.go:158-246 | one snapshot for each decoded profile |
| `RowContents.RowsSay` | iq/cmd/kliq/source_baseline_persistence.go:102-156 | a named, observed source has exactly one row a metric, and every entry of it is the one named after it |
| `RowContents.DecodedIff` | iq/cmd/kliq/source_baseline_persistence.go:158-246 | any rows decode to a profile for exactly the sources one of whose own rows of a known metric has an observation |
| `RowContents.DecodedCounts` | iq/cmd/kliq/source_baseline_persistence.go:158-246 | with the extremes of those rows as counts, windows, confidence and times, promoted by any learned or approved row, and as many windows as observations without any |
| `RowContents.DecodedShows` | iq/cmd/kliq/source_baseline_persistence.go:158-246 | and for each metric the average, under its own or the older names, the triggers and the peak of its latest row, a missing SYN or scan peak of a promoted profile repaired |
| `RowContents.DecodedHides` | iq/cmd/kliq/source_baseline_persistence.go:158-246 | a metric without a row has none of them |
| `BaselineRows.DecodeEncoded` | iq/cmd/kliq/source_baseline_persistence.go:102-246 | rows of any profiles, in any order and among foreign rows, decode to each profile, clamped and repaired |
| `BaselineRows.RoundTripIff` | iq/cmd/kliq/source_baseline_persistence.go:102-246 | to exactly the same profiles if and only if each is storable |
| `BaselineRows.SnapshotRoundTripIff` | iq/cmd/kliq/source_baseline_persistence.go:102-246 | one snapshot comes back unchanged exactly when it is named, observed, has windows, no negative confidence or time, and no peak to repair |
| `BaselineRestart.UpsertRow` | pkg/statestore/sqlite/baselines.go:63-102 | inserts or updates one row; missing times become the store's clock, and a row that was there keeps its creation time |
| `RowContents.StoredMeans` | pkg/statestore/sqlite/baselines.go:63-102 | a stored row is the written one, under its source and metric, with missing times set to the clock and the creation time of the row it replaces |
| `BaselineRestart.FlushRows` | iq/cmd/kliq/source_baseline_persistence.go:73-100 | a flush upserts the rows of every handed-out profile against what the table held, in any order |
| `BaselineRestart.UpsertedAt` | pkg/statestore/sqlite/baselines.go:85-92 | upserting rows with distinct keys stores each, with the creation time of the row it replaces, and leaves every other row alone |
| `BaselineRestart.TableHoldsRecord` | iq/cmd/kliq/source_baseline_persistence.go:60-100 | over any run the table holds exactly the rows of everything flushed or restored, latest wins, each created at the first-seen time first written for its source |
| `BaselineRestart.TableDecodes` | iq/cmd/kliq/source_baseline_persistence.go:60-246 | read back in any order it decodes to the recorded profiles with those first-seen times |
| `BaselineRestart.LiveIsListed` | iq/cmd/kliq/source_baseline_persistence.go:60-246 | after any run and one more flush every live source is among the decoded snapshots |
| `BaselineRestart.RestartRestores` | iq/cmd/kliq/source_baseline_persistence.go:60-246 | end to end: restored into an empty cache, a source that was live comes back exactly when it is among the first `maxSources` listed, then with its profile dated to the first-seen time first written for it, and unchanged exactly when that is its own |
| `BaselineRestart.RelearnedIsOlder` | pkg/statestore/sqlite/baselines.go:85-92 | a source learned at 1, flushed, evicted and learned again at 100 is live since 100, while its rows say 1 |
| `RelationshipLearner.Learner.LearnSingle` | pkg/relationshiplearner/learner.go:136-205 | one observation: entry, promotion and signal |
| `RelationshipLearner.Learner.Learn` | pkg/relationshiplearner/learner.go:129-134 | a batch is its observations one after the other |
| `RelationshipLearner.Learner.PromoteEligible` | pkg/relationshiplearner/learner.go:265-273 | promotion of all eligible candidates, in learning mode only |
| `RelationshipLearner.Learner.FlushDirty` | pkg/relationshiplearner/learner.go:256-285 | exactly the dirty entries are handed out, after promotion, and marked clean |
| `RelationshipLearner.Learner.Freeze` | pkg/relationshiplearner/learner.go:299-315 | learned and approved entries become frozen |
| `RelationshipLearner.Learner.LoadFromStore` | pkg/relationshiplearner/learner.go:345-367 | listed relationships enter in order, over nothing that is in the cache, until it is full; a store that fails changes nothing |
| `LearnerHistory.LearnMeans` | pkg/relationshiplearner/learner.go:136-205 | an observation the guard passes, of a known relationship or one with room, counts for its entry alone, learns a candidate that is ready, and signals exactly when frozen, foreign and silent for five minutes; any other changes nothing |
| `LearnerHistory.FlushMeans` | pkg/relationshiplearner/learner.go:256-285 | a flush hands out exactly the entries marked or promoted by it, as they then are, and leaves none marked |
| `LearnerHistory.FreezeMeans` | pkg/relationshiplearner/learner.go:299-315 | a freeze freezes and marks what was learned or approved, and changes nothing else |
| `LearnerHistory.LoadMeans` | pkg/relationshiplearner/learner.go:345-367 | a load takes in the first row of each unknown relationship, up to the first that finds no room, as it is stored, over nothing that is there |
| `LearnerHistory.RunTallies` | pkg/relationshiplearner/learner.go:136-367 | over any run a known relationship stays known, as old as it was, and counts every observation of it that passes the guard |
| `LearnerHistory.NothingIsLost` | pkg/relationshiplearner/learner.go:256-285 | after any run from an empty cache and one more flush, everything handed out or loaded, latest wins, holds every relationship exactly as the cache does |
| `RelationshipLearner.FreezeIsFinal` | pkg/relationshiplearner/learner.go:136-367 | after a freeze the accepted set is what was learned, approved or frozen, and no run changes it or learns anything; only loads can add to it, and only relationships unknown at the freeze |
| `RelationshipLearner.SignalsIff` | pkg/relationshiplearner/learner.go:136-205 | in any run over any starting cache, clocks in any order, an observation signals exactly when the guard passes it, the graph is frozen, it is known or the cache has room, it is not accepted and has not signalled for five minutes |
| `RelationshipLearner.SignalsApart` | pkg/relationshiplearner/learner.go:193-200 | in any such run signals of one relationship are at least five minutes apart |
| `RelationshipLearner.LearnedIsEarned` | pkg/relationshiplearner/learner.go:178-226 | in any run from any state, clocks in any order, a learned relationship has counts that meet their thresholds and was old enough at some operation, unless it was learned when the run began or a load brought it in |
| `RelationshipLearner.EarnedIsLearned` | pkg/relationshiplearner/learner.go:178-184 | and one that meets them is learned at its next observation or flush |
| `RelationshipLearner.VerdictIgnored` | pkg/relationshiplearner/learner.go:136-205 | apart from a denial, the guard's verdict changes nothing: evidence-only and candidate-only relationships are counted, promoted and signalled like allowed ones |
| `RelationshipLearner.EvidenceIsPromoted` | pkg/relationshiplearner/learner.go:136-226 | an evidence-only relationship reported once at a time, often enough and the last time late enough, becomes learned under every setting |
| `PolicyResolver.Forbidden` | iq/internal/actions/resolver.go:381-388 | some forbidden entry matches |
| `PolicyResolver.GuardrailDeny` | iq/internal/actions/resolver.go:359-379 | the first guardrail in the way; `PolicySubjects.GuardrailReported` says which that is |
| `PolicyResolver.BlastRadiusDeny` | iq/internal/actions/resolver.go:281-296 | the first protected or unclassifiable subject in the way; `PolicySubjects.ShieldReported` says which that is |
| `PolicyResolver.SubjectDeny` | iq/internal/actions/resolver.go:171-192 | the action is reserved to unknown sources and this one is not |
| `PolicyResolver.ApprovalDeny` | iq/internal/actions/resolver.go:194-209 | approval is required and missing |
| `PolicyResolver.FindLimit` | iq/internal/actions/resolver.go:229-240 | the first positive duration limit of the action |
| `PolicyResolver.RunGates` | iq/internal/actions/resolver.go:116-151 | the gates in order, up to the first that denies |
| `PolicyResolver.Authorize` | iq/internal/actions/resolver.go:55-169 | the whole resolution, assigned step by step; `PolicySubjects` says what it comes to, read off the raw policy and proposal |
| `PolicySubjects.SubjectsAreSafe` | iq/internal/actions/resolver.go:359-495 | when the target is a guardrail's subject, its attributes name exactly that subject (any accepted spelling, padding trimmed) or, naming nobody, list the group, no managed resolution enforces an action the guardrail prohibits on it |
| `PolicySubjects.OthersAreSpared` | iq/internal/actions/resolver.go:423-448 | when its attributes name anybody else and it is not itself the subject, taking the guardrail away changes nothing about the resolution |
| `PolicySubjects.UnclearDecides` | iq/internal/actions/resolver.go:359-459 | a target is unclear when it is not the subject, its attributes name nobody and, for a group, list no groups; then a guardrail that prohibits the action denies it exactly if it refuses unclear targets: every action, or the hard ones unless it says otherwise |
| `PolicySubjects.OnlyHinderingMatters` | iq/internal/actions/resolver.go:359-379 | nor does taking away any guardrail that does not prohibit what is asked for, or concerns neither the target nor an unclear one it refuses |
| `PolicySubjects.AllowedExactly` | iq/internal/actions/resolver.go:55-169 | a proposal is allowed exactly when it is not gated or, read off the raw policy, target and parameters, no protected subject shields the target and the action, if there is one, has its capability, no guardrail in its way, an unknown source if it is reserved to those, and its approval |
| `PolicySubjects.AllowedMeans` | iq/internal/actions/resolver.go:55-169 | the authorized action and level are those asked for under the ceiling, the duration is cut to the first positive limit of that action and to nothing else, the audit flag is set when required, and each downgrade is reported exactly when it happened |
| `PolicySubjects.DeniedMeans` | iq/internal/actions/resolver.go:55-169 | a denial enforces nothing, leaves duration and parameters, and has one reason |
| `PolicySubjects.CapabilityReported` | iq/internal/actions/resolver.go:116-125 | a missing capability is reported first |
| `PolicySubjects.GuardrailReported` | iq/internal/actions/resolver.go:359-459 | then the first guardrail in the way, violated if it concerns the target and unknown if the target is unclear |
| `PolicySubjects.ShieldReported` | iq/internal/actions/resolver.go:281-357 | then the first protected subject in the way, in the same two forms |
| `PolicySubjects.LifecycleReported` | iq/internal/actions/resolver.go:171-209 | and last the reservation to unknown sources, then the missing approval |
| `PolicyResolver.NeverRaised` | iq/internal/actions/resolver.go:55-169 | the level never exceeds the request or the ceiling, the TTL never grows, and a denial carries no action |
| `PolicyResolver.ResolveTwice` | iq/internal/actions/resolver.go:55-169 | resolving an allowed result again gives the same action, level, TTL and parameters |
| `PolicyResolver.AllowedIff` | iq/internal/actions/resolver.go:55-169 | a proposal is allowed exactly when nothing gates it (not managed, no policy pack, observe ceiling) or, once capped, no protected subject stands in its way and its action, if it has one, has the capability, no guardrail in its way and the permission of the autonomy limits; in terms of the gates, which `PolicySubjects.AllowedExactly` resolves into raw inputs |
| `PolicyResolver.GuardrailsHold` | iq/internal/actions/resolver.go:359-379 | no authorized enforcement is one a matching guardrail forbids, in terms of the gate's own match; `PolicySubjects.SubjectsAreSafe` says it of the raw attributes |
| `PolicyResolver.LimitsApplied` | iq/internal/actions/resolver.go:153-163 | durations are cut only to their limit, and the audit flag is set whenever required |
| `PolicyResolver.CeilingIsByLevel` | iq/internal/actions/resolver.go:95-151 | the rate-limit ceiling caps levels, not actions: a blocking action passes it exactly when it was requested, below the hard level, and the other gates permit it |
| `PolicyResolver.DenyPassesCeiling` | iq/internal/actions/resolver.go:95-151 | with that ceiling as the only limit, an access denial requested at the soft level is allowed as it is |

## Left out

* Packet byte parsing, VLAN tags, ring-buffer events and their sampling, the port histogram, the per-flow
  telemetry and the last-seen TTL, TCP flags and source port of an entry: no verdict depends on them.
* Prefix-trie internals: an allow list is the set of addresses it matches. IPv4 and IPv6 maps are one map
  whose keys keep the families apart.
* Races between CPUs on bucket creation, failing map updates, and wrap-around of the 64-bit counters.
* Two brokers sharing one store, other transitions that bypass the broker, and the loss of the token memory
  when the process restarts.
* The flush of clean profiles as well on shutdown: their rows are in the table already.
* Receipts, audit fields of a lease (policy, proposal, last error, revert time) and the audit flag in its
  metadata. The renewal count is a number instead of a metadata text.
* Action and level names padded with white space, which the code trims in some places and not in others.
* The exit for a PEP that answers an apply with a foreign token: neither brokered PEP does.
* Text that is not valid UTF-8, in keys and quotes.
* Sums and durations beyond 64 bits, rounding of floating-point numbers, and JSON numbers.
* Adapter identifiers: one adapter per store. The digest of a fencing token: tokens are the tuples digested.
* Loading and flushing the metric engine's profiles.
* How rule parameters, resolver parameters and guard results are parsed out of maps and text: the model takes
  the parsed facts. The resolver writes its audit flag into the caller's parameter map, here into a copy.
* Responses, alerts, graph lifecycle, configuration and the SQL behind the stores.
- ActionBroker.LeaseStore.List: gives the selected rows in any order, because the laws hold for every order; the code sorts by expiry and id. It compares expiries as times, where the SQL compares RFC 3339 texts without trailing zeros: a lease expiring at `:50Z` is not selected at `:50.5Z`, because `Z` sorts after the dot.
- BrokerCoverage.SweepLeavesUnexpired: compares expiries as times, so it does not cover that delay of less than a second.
- ActionBroker.LeaseStore.FindActive: orders expiries and application times as times; the SQL orders their texts, which agree except within one second.
- ActionBroker.NewestActive: orders times as numbers, like FindActive.
- ActionBroker.LeaseStore.UpdateStatus: does not model the revert time and the last error, which nothing modelled reads.
- LeaseTargets.WriteMetadata: does not model the renewal count and the audit entry of the map; the count is a field of the lease.
- ActionBroker.Broker.GrantLease: does not model the exit for a PEP that answers with a foreign token; neither brokered PEP does.
- ActionBroker.Broker.Apply: does not model the receipt it returns.
- ActionBroker.Broker.ApplyRelationship: returns the broker's outcome instead of the rendered action result.
- ActionBroker.Broker.UpdateAutonomyConstraints: does not model the audit flag, which only marks metadata.
- ActionBroker.FencedPep.Begin: does not model the result it clears.
- ActionBroker.FencedPep.Finish: does not model the result it returns.
- ActionBroker.Broker.Revert: takes leases whose fencing key is their target string, which every lease the broker writes is.
- ActionBroker.Broker.RevertExpired: does not model the receipts it returns.
- ActionBroker.Broker.ReconcilePending: does not model the receipts it returns.
- XdpShield.Shield.RecordSource: does not model the last source port, TTL and TCP flags of an entry, which no verdict reads.
- XdpShield.Shield.Process: does not model the port histogram, the flow map and the events, which no verdict reads.
- RelationshipLearner.Learner.Freeze: does not model the freeze of the stored relationships; it is about the cache.
- BaselineEngine.Engine.Observe: leaves open which of several least trusted profiles is evicted, because the code follows map order.
- SourceBaseline.Cache.Update: keeps profiles by value in the map; updates through a shared reference are not modelled.
- Detection.ReactionEngine.DetectionFacts: returns the keys of the reported detections instead of the rendered facts; facts of rules whose names render alike overwrite each other in the code.
- DetectionRuns.WindowIsHistory: is about keys used by rules of one window length, because rules with different windows would prune each other's samples.
- RelationshipLearner.Learner.FlushDirty: does not model failing store writes after the entries are marked clean.
- XdpRuns.EdgeRateLimit: is stated under the same conditions as the source bound.
- XdpRuns.SourceRateLimit: is stated for rates up to 10^9 and configurations that fit the word, the ones for which a bound exists and the words compute it.
- XdpWindows.SourceWindowLimit: is stated for configurations that fit the word.
- BaselineRestart.FlushRows: does not model store calls that fail; the code skips such a row and goes on.
- BaselineRestart.RestartRestores: is stated for nonnegative rates, smoothing rates up to 1, positive clocks and restores of what the table holds.
