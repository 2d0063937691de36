# DGate: a verified model of its replication, routing index and script round trips

DGate is an API gateway. Administrators change namespaces, routes, services, modules and documents
through *changelogs*; in a cluster the changelogs are replicated by one of two protocols, and every
node keeps compiled routers and script modules in memory beside its store. This project models that
logic in Dafny and proves what a maintainer relies on, over every input, every interleaving and every
run of the modelled machines. `dafny verify dfyconfig.toml` checks all of it.

## What is modelled

**Tempo replication** (`src/cluster/tempo/`). `TempoState.dfy` and `LogicalClock.dfy` hold the command
table and the clock as the mutable objects they are, proved against value functions. `TempoNode.dfy`
is one node as a machine whose steps are the lock sections of the source: every `propose` call is a
task of its own and the message loop is one more, so the two places that can trigger a commit (the
acknowledgment handler and the check after the broadcast) really race for the mark.
`TempoCluster.dfy` puts any number of such nodes on a network that remembers everything ever sent:
a message may be lost, reordered or delivered again, a node may stop for good, and garbage collection
may happen at any point although the source never calls it. `TempoNodeInvariant.dfy` and
`TempoCluster.dfy` prove the inductive invariant; `TempoSafety.dfy` and `TempoOrder.dfy` state what it
means. `TempoConsensus.dfy` is the manager as an object, its handlers proved to take the node machine
along its own steps when nothing interrupts them. `TempoPaths.dfy` builds runs in which only some nodes
move, and with it `TempoQuorum.dfy`, `TempoProgress.dfy` and `TempoDivergence.dfy` say what stays
reachable: commits by any quorum, commits that share no acknowledger, stores that drift apart.

**The replicated store** (`src/storage/`, `src/cluster/raft/`). `Storage.dfy` has the in-memory tables
and the typed store; `Replay.dfy` the algebra of folding changelogs, where a changelog writes or removes
exactly one row. `RaftStateMachine.dfy` applies entries and installs snapshots;
`RaftReplication.dfy` covers every run of a cluster of these machines over one committed log, with
snapshots taken and installed at any time and restarts over the tables left behind;
`RaftLogStore.dfy` is the log below them.

**The routing index** (`src/proxy/mod.rs`). `PathPattern.dfy` compiles path patterns to the strings of
regular expressions and says what patterns mean, `RegularExpressions.dfy` reads such strings, searches
and captures with them, and `PatternMeaning.dfy` says when the two agree. `Routing.dfy` says when a
cached router agrees with the store; `Proxy.dfy` is standalone mode with its restart;
`ClusterIndex.dfy` is cluster mode, where writers, their notifications and the one consumer interleave
at every store access, a listing being one access for each row. `Modules.dfy` is the module executor,
`Documents.dfy` the documents handed to and taken back from scripts, `Base64.dfy` the `btoa` and `atob`
scripts are given.

Physical time, the order in which a hash table is listed, the letters and numeric characters of Unicode
outside ASCII, the message taken from the network, and which of equal sequence numbers is collected
first are parameters, free in every statement. Whether a changelog's JSON fits its resource type, and
whether a module payload decodes, is part of the changelog, so both outcomes are covered.

## Where the code and its documentation differ

- `src/cluster/tempo/clock.rs:75-83`: the comment says `update` adds one; the code does not, and the
  model follows the code. Causality still holds because a proposal ticks the clock afterwards.
- `src/cluster/tempo/mod.rs:14-22`: a fast path with matching clocks and a slow path are described.
  The code commits on the number of acknowledgments alone and has no slow path; `acks_agree` is unused.
- `src/cluster/raft/state_machine.rs:355`: the comment says the current state is cleared before a
  snapshot is replayed; the code replays over it. `RaftReplication.SnapshotEquivalence` proves that this
  is right for every replica of the log, and `RaftStateMachine.InstallOverAnything` exactly when it is
  right over an arbitrary store.
- `src/cluster/raft/store.rs:77-87`: with no entries held, the last log id is none even when the purge
  point is known (`RaftLogStore.PurgedEmpty`).

## What is false of the code, and exactly when it holds

- Convergence. Commits are applied on arrival, not in clock order. Two changelogs conflict when they
  write one row differently. `TempoDivergence.ConvergesIff`: settled nodes with the same commits, of a
  given set of changelogs, always hold equal stores if and only if no two of these conflict (or the
  cluster has one member, or a quorum larger than itself). `TempoDivergence.Diverges` gives the run.
- Common acknowledgers. `TempoProgress.CommonAckerIff`: any two commits share an acknowledging member if
  and only if the configured quorum is more than half the members. The default quorum is more
  than half for odd numbers of members (`TempoQuorum.OddClustersShareAnAcker`) and exactly half for even
  ones (`TempoProgress.EvenClustersSplit`).
- Collection of old commands. A command whose commit is applied before the command itself arrives is
  tracked as uncommitted for good and never collected (`TempoSafety.OvertakenStays`); one that was
  tracked when its commit was applied is collected (`TempoSafety.CommittedIsCollectible`).
- A call that reports a timeout may still be committed (`TempoProgress.TimedOutYetCommitted`, from every
  reachable state, whenever a quorum takes two nodes or more).
- Index coherence. A module whose payload does not decode is stored, but returns before its namespace is
  rebuilt. `Proxy.CoherentIff`: one changelog keeps the index coherent if and only if it does not add
  such a module. `Proxy.CoherentAlways`: after any number of them the index is coherent if and only if no
  such module is in the store.
- Namespaces are told apart by a key prefix. `Storage.ColonLeaks` and `Storage.KeysMeet`: a listing of one
  namespace can return a resource of another, and two resources can share a key, if and only if one name
  continues the other with a colon. `Storage.DocumentKeysMeet` is the same for documents.
- Path patterns. Only four characters are escaped. `PatternMeaning.MeaningIff`: a pattern compiles,
  matches exactly the paths it means and captures exactly its parameters if and only if it has no
  literal `+ ? | ^ $ ( ) [`, every literal backslash stands right before `/`, `-` or `_`, and the
  parameter names are valid and different. That such a pattern compiles and keeps its meaning
  (`PatternMeaning.CompilesToTokens`, `PatternMeaning.CompilationPreservesMeaning`) needs nothing else;
  that no other one does is proved for the expressions that the model can read, which lack only the
  syntax named under "Left out". `PatternMeaning.SyntaxIsNotEscaped` says how the meaning is lost.
- `atob(btoa(s))` is `s` if and only if every character is below 256, or is the first of its group of
  three and below 260 (`Base64.RoundTripIff`).
- Documents whose own names hold a separator are not written back as themselves: the key they are read
  under leads to another document or to none, or, for a colon in the name of a local collection, to the
  same row with another collection and id in it. `Documents.LocalKeyIff` and `Documents.CrossKeyIff` are
  the exact conditions under which a key leads back to its document.

## Model

| member | source | states |
|---|---|---|
| TempoBookkeeping.TempoState.AddCommand | src/cluster/tempo/state.rs:106-110 | the first writer of a dot wins; nothing else changes |
| TempoBookkeeping.TempoState.AddAck | src/cluster/tempo/state.rs:114-123 | records the acknowledgment in a tracked command and reports whether the quorum is there and the command uncommitted |
| TempoBookkeeping.TempoState.HasQuorum | src/cluster/tempo/state.rs:126-131 | the same question without recording |
| TempoBookkeeping.TempoState.MarkCommitted | src/cluster/tempo/state.rs:139-157 | flags a tracked command whoever proposed it and changes nothing else about it; counts it once, raises the last own sequence; marks an untracked dot too |
| TempoBookkeeping.TempoState.Gc | src/cluster/tempo/state.rs:180-201 | drops a set of committed commands that some order of ties allows and nothing else |
| TempoBookkeeping.SortBySequenceSorts | src/cluster/tempo/state.rs:192-193 | the sort orders by sequence and keeps the multiset |
| TempoBookkeeping.SortedPrefixMayDrop | src/cluster/tempo/state.rs:186-200 | the first commands of any such order, all but the most recent, are a droppable set |
| TempoSafety.CollectedBook | src/cluster/tempo/state.rs:180-201 | a collection keeps at most keep_recent committed commands, every undecided command and every commit mark, and drops none later than one it keeps |
| TempoSafety.ForeignMarkFlags | src/cluster/tempo/state.rs:139-157 | the commit of another node's tracked command flags it, keeps its changelog, clock and acknowledgments, and leaves every other command alone |
| TempoSafety.CommittedIsCollectible | src/cluster/tempo/state.rs:180-201 | a command tracked before its commit and not collected since is taken by the next collection that keeps none, in every run |
| TempoSafety.OvertakenStays | src/cluster/tempo/mod.rs:270-309 | a command that arrives after its commit stays uncommitted in the table for good, and no collection takes it |
| LogicalClock.Clock.Tick | src/cluster/tempo/clock.rs:52-73 | under any interference between load and exchange the result is that of the retries |
| LogicalClock.Clock.Update | src/cluster/tempo/clock.rs:77-99 | afterwards the clock is at least the received value and never lower than before |
| LogicalClock.NeverDecreases | src/cluster/tempo/clock.rs:52-99 | over every interleaving of loads and exchanges and any physical time the clock never decreases |
| LogicalClock.ClockGuarantees | src/cluster/tempo/clock.rs:52-99 | in every such interleaving ticks are distinct and a finished update leaves the clock at least at what was received |
| LogicalClock.TickIsLeast | src/cluster/tempo/clock.rs:52-73 | a tick is the least value above the clock and not behind the physical time |
| LogicalClock.UpdateIsLeast | src/cluster/tempo/clock.rs:77-99 | an update is the least value behind none of the clock, the value received and the physical time |
| LogicalClock.ResultsKeepTime | src/cluster/tempo/clock.rs:52-99 | however many retries, no result is behind a time that every reading of the physical clock has passed |
| TempoNodeInvariant.InitInv | src/cluster/tempo/mod.rs:102-170 | a new node satisfies the node invariant |
| TempoNodeInvariant.NodeInvStep | src/cluster/tempo/mod.rs:250-431 | every lock section of every task of a node, in any order, keeps the node invariant |
| TempoNodeInvariant.StepGrows | src/cluster/tempo/mod.rs:250-431 | no step takes back a proposal, a commit, a decision or the clock |
| TempoCluster.EnvStep | src/cluster/tempo/mod.rs:299-308 | every message is true when it is sent and stays true: who sent it, for which proposal, with which clock |
| TempoCluster.ClusterInvStep | src/cluster/tempo/mod.rs:250-431 | every step of every node over the lossy, reordering, repeating network keeps the cluster invariant |
| TempoCluster.EveryRun | src/cluster/tempo/network.rs:55-94 | the cluster invariant holds after every run from the start |
| TempoSafety.AppliedOnceAndAuthentic | src/cluster/tempo/mod.rs:341-431 | each node applies each dot at most once, applies exactly what the owner proposed, and its store is the fold of what it applied |
| TempoSafety.TaskWasProposed | src/cluster/tempo/mod.rs:589-651 | every dot goes back to a propose call of its node, made when its sequence number came up, with that changelog |
| TempoSafety.CommitHasQuorum | src/cluster/tempo/mod.rs:312-339 | whoever has a dot committed, its owner decided with acknowledgments of at least the quorum of distinct members, each of which has this proposal |
| TempoSafety.CommitMessagesAgree | src/cluster/tempo/mod.rs:416-429 | commit messages about one dot all carry the owner's proposal and clock and follow its decision |
| TempoSafety.AnswerMeansApplied | src/cluster/tempo/mod.rs:406-414 | an answered call had its changelog committed by a quorum and applied locally; success tells whether it took effect |
| TempoSafety.NoLostWakeup | src/cluster/tempo/mod.rs:655-690 | a waiting call has its sender registered or its answer in the channel, and once the commit is done the answer is there |
| TempoSafety.DoneIsFinal | src/cluster/tempo/mod.rs:689-701 | a call ends once: one answer at most, and none after a timeout |
| TempoSafety.OneDecisionPerDot | src/cluster/tempo/mod.rs:383-404 | the two commit triggers of a dot never both pass the mark, and its decision is broadcast at most once, exactly when the commit call has ended |
| TempoSafety.NextDotIsFresh | src/cluster/tempo/mod.rs:589-594 | the dot about to be handed out has never been seen by any node or message |
| TempoSafety.Bookkeeping | src/cluster/tempo/state.rs:139-176 | in every reachable state the counter is the number of committed dots, flags and set agree (both ways for own dots), and the last applied sequence is the largest own one |
| TempoOrder.CausalClocks | src/cluster/tempo/mod.rs:288-290 | a proposal ticked after its node handled any message about another command has a strictly larger clock than that command |
| TempoOrder.AckClocks | src/cluster/tempo/mod.rs:288-308 | every recorded acknowledgment of another node is strictly later than the command, the owner's own is equal |
| TempoOrder.BumpReaches | src/cluster/tempo/mod.rs:231-247 | a clock bump is sent to every other member, and delivering it brings that member's clock up to the sender's |
| TempoOrder.RunGrows | src/cluster/tempo/mod.rs:250-431 | what any node knows at one moment of a run it knows at every later one |
| TempoOrder.SameKeyOrderConverges | src/cluster/tempo/mod.rs:434-550 | nodes that applied the same dots in the same order for every key hold equal stores |
| TempoOrder.SettledApplied | src/cluster/tempo/mod.rs:358-431 | outside the gap between mark and apply, the applied dots are the committed dots |
| TempoOrder.NoConflictConverges | src/cluster/tempo/mod.rs:434-550 | nodes with equal commits, no two of which conflict, hold equal stores whatever the orders of application |
| TempoDivergence.Diverges | src/cluster/tempo/mod.rs:358-380 | in every cluster of at least two members, with every quorum it can reach and over every initial store, any two conflicting changelogs have a run that ends with both committed at two nodes, nothing half done, and different stores |
| TempoDivergence.ConvergesIff | src/cluster/tempo/mod.rs:358-431 | settled nodes with equal commits of given changelogs always hold equal stores if and only if no two of them conflict, for every cluster of two or more that can commit at all |
| TempoQuorum.LargeQuorumsMeet | src/cluster/tempo/mod.rs:115-120 | with a quorum of more than half the members any two commits anywhere have a common acknowledger |
| TempoQuorum.OddClustersShareAnAcker | src/cluster/tempo/mod.rs:115-120 | the default quorum does that for an odd number of members |
| TempoQuorum.IdleQuorumSuffices | src/cluster/tempo/mod.rs:270-339 | from idle message loops a proposal commits with exactly the chosen acknowledgers, nothing else is committed or applied, and the decision is sent to every other member |
| TempoProgress.QuorumSuffices | src/cluster/tempo/mod.rs:312-339 | from every reachable state, whatever is under way, a new proposal can be committed by exactly any chosen quorum while all others stay silent |
| TempoProgress.SilentMinority | src/cluster/tempo/mod.rs:115-120 | any f = (n - 1) / 2 silent nodes leave every other node able to commit, for every n at least 1 |
| TempoProgress.CommonAckerIff | src/cluster/tempo/mod.rs:115-120 | whatever quorum is configured, any two commits share an acknowledger if and only if it is more than half the members |
| TempoProgress.SmallQuorumsSplit | src/cluster/tempo/mod.rs:118-120 | every quorum of at most half the members lets two proposals commit with disjoint acknowledgers, from every start |
| TempoProgress.EvenClustersSplit | src/cluster/tempo/mod.rs:115-120 | the default quorum does that for every even number of members |
| TempoProgress.TimedOutYetCommitted | src/cluster/tempo/mod.rs:689-701 | from every reachable state a new call can end in a timeout and its changelog be committed and applied all the same, whenever a quorum takes two nodes or more |
| TempoConsensus.TempoConsensus.BroadcastMessage | src/cluster/tempo/mod.rs:572-587 | one envelope to every member but the sender |
| TempoConsensus.TempoConsensus.SendMessage | src/cluster/tempo/mod.rs:553-570 | one envelope to a known member, none otherwise |
| TempoConsensus.TempoConsensus.CommitCommand | src/cluster/tempo/mod.rs:383-431 | whole new state and messages: nothing unless tracked and unmarked, else mark, apply, answer, announce |
| TempoConsensus.TempoConsensus.HandleMCollect | src/cluster/tempo/mod.rs:270-309 | whole new state and the acknowledgment with a clock past the command's |
| TempoConsensus.TempoConsensus.HandleMCollectAck | src/cluster/tempo/mod.rs:312-339 | whole new state; commits when this acknowledgment completes the quorum |
| TempoConsensus.TempoConsensus.HandleMCommit | src/cluster/tempo/mod.rs:341-381 | applies and marks a commit not seen before, only moves the clock otherwise |
| TempoConsensus.TempoConsensus.HandleMessage | src/cluster/tempo/mod.rs:250-268 | the dispatch over message kinds |
| TempoConsensus.TempoConsensus.Propose | src/cluster/tempo/mod.rs:648-687 | whole new state and messages up to the wait, including a commit by a quorum of one |
| TempoConsensus.SectionsMakeCommit | src/cluster/tempo/mod.rs:383-431 | the four lock sections of a commit, one after the other, are the uninterrupted commit |
| TempoConsensus.HandlersFollowTheMachine | src/cluster/tempo/mod.rs:250-381 | an uninterrupted handler takes the node machine from idle to idle along its own steps |
| TempoConsensus.ProposeFollowsTheMachine | src/cluster/tempo/mod.rs:648-687 | an uninterrupted propose call follows the node machine up to its wait |
| Replay.AcceptedIff | src/cluster/tempo/mod.rs:434-550 | for each of the sixteen commands, exactly when a changelog is accepted, by the type of its item |
| Replay.AddedRow | src/cluster/tempo/mod.rs:438-525 | for each adding command, the row it writes, table and key written out, and that every other row stays |
| Replay.DeletedRow | src/cluster/tempo/mod.rs:443-541 | for each deleting command, the row it empties, and that every other row stays |
| Replay.TypesApart | src/storage/mod.rs:322-329 | resources of different types never share a row |
| Replay.FoldAt | src/cluster/raft/state_machine.rs:89-259 | one row of a fold depends only on the last write to its key |
| Replay.PrefixThenWhole | src/cluster/raft/state_machine.rs:355-360 | a log replayed over a store that holds a prefix of it gives what the log gives from the start |
| Replay.ReplayIdempotent | src/proxy/mod.rs:553-568 | replaying a log over what it already produced changes nothing, from any starting store |
| Replay.ReplayWithoutClearing | src/cluster/raft/state_machine.rs:355-360 | replaying over a store equals replaying over nothing if and only if the log writes every row already there |
| Replay.SameOrderPerKey | src/cluster/tempo/mod.rs:434-550 | a fold depends only on the order of the changelogs of each key |
| Replay.OrderMatters | src/cluster/tempo/mod.rs:434-550 | over every store, the order of two changelogs matters if and only if they write one row differently |
| Replay.DeleteUndoesAdd | src/cluster/tempo/mod.rs:437-541 | for every resource type, adding writes the row of the item's own names and deleting by the same names removes exactly that row |
| Storage.ScopedKeyInjective | src/storage/mod.rs:322-324 | scoped keys of colon-free namespaces are injective whatever the names |
| Storage.ScopedPrefixIff | src/storage/mod.rs:387-390 | a prefix listing finds the keys of its own namespace and no others |
| Storage.ColonLeaks | src/storage/mod.rs:387-390 | the listing of a namespace can return a key of another one if and only if one name continues the other with a colon |
| Storage.KeysMeet | src/storage/mod.rs:322-324 | resources of two namespaces can share a key under exactly that condition |
| Storage.DocumentKeyInjective | src/storage/mod.rs:327-329 | document keys are injective for colon-free namespaces and collections, whatever the ids |
| Storage.DocumentKeysMeet | src/storage/mod.rs:327-329 | documents of two collections can share a key if and only if the joined names of namespace and collection are equal or one continues the other with a colon |
| Storage.DocumentPrefixIff | src/storage/mod.rs:535-542 | listing a collection finds its documents and no others |
| Storage.MemoryStorage.Get | src/storage/mod.rs:83-89 | the value under the key, none for an absent key or table |
| Storage.MemoryStorage.Set | src/storage/mod.rs:91-96 | writes one row, creating the table if need be |
| Storage.MemoryStorage.Delete | src/storage/mod.rs:98-104 | removes one row, nothing for an absent table |
| Storage.MemoryStorage.List | src/storage/mod.rs:106-119 | exactly the rows under the prefix, each once, in some order |
| Storage.MemoryStorage.Clear | src/storage/mod.rs:121-126 | empties one table and no other |
| Storage.ProxyStore.ApplyChangelog | src/cluster/tempo/mod.rs:434-550 | the store becomes that of the changelog's one write; fails without a change exactly when the item does not fit |
| RaftStateMachine.DGateStateMachine.ApplyChangelog | src/cluster/raft/state_machine.rs:89-259 | store, snapshot list and notification move together, and only on success |
| RaftStateMachine.DGateStateMachine.Apply | src/cluster/raft/state_machine.rs:277-319 | whole new state after all entries and one response per entry, successful exactly for changelogs that took effect |
| RaftStateMachine.DGateStateMachine.GetSnapshotBuilder | src/cluster/raft/state_machine.rs:321-331 | the builder builds the snapshot of this moment whenever it is asked |
| RaftStateMachine.DGateStateMachine.GetCurrentSnapshot | src/cluster/raft/state_machine.rs:369-403 | none before the first entry, else id, membership and list of this moment |
| RaftStateMachine.DGateStateMachine.InstallSnapshot | src/cluster/raft/state_machine.rs:339-367 | replays without clearing, then takes over id, membership and list; bytes that do not decode change nothing |
| RaftStateMachine.AppliesHold | src/cluster/raft/state_machine.rs:277-319 | applying entries leaves the fold of the effective changelogs, their list, the last id and the last membership |
| RaftStateMachine.ApplyNotifies | src/cluster/raft/state_machine.rs:248-253 | applying entries sends the proxy exactly the effective changelogs among them, in order |
| RaftStateMachine.InstallNotifies | src/cluster/raft/state_machine.rs:355-360 | installing a snapshot sends it every effective changelog of the list, in order, and nothing if the bytes do not decode |
| RaftStateMachine.InstallOverAnything | src/cluster/raft/state_machine.rs:339-367 | an install over any store equals having applied the entries if and only if the snapshot writes every row that is there |
| RaftStateMachine.ForeignRowSurvives | src/cluster/raft/state_machine.rs:355-360 | a row no changelog wrote survives every install |
| RaftReplication.StepKeepsInv | src/cluster/raft/state_machine.rs:277-367 | applying, taking, installing (late ones too) and restarting keep every replica explained by the log |
| RaftReplication.SnapshotEquivalence | src/cluster/raft/state_machine.rs:255-367 | in every run, a replica past everything it had reached before equals the node that applied every entry: store, last id, membership and list |
| RaftReplication.BehindAfterRestart | src/cluster/raft/state_machine.rs:339-367 | before that it differs only in rows a restart left over and the log has yet to write again |
| RaftReplication.ProxiesAreTold | src/cluster/raft/state_machine.rs:248-367 | in every run, with installs and restarts, the last thing a replica's proxy was told is every effective changelog up to where the replica is, in the order of the log |
| RaftLogStore.LogStore.Append | src/cluster/raft/store.rs:105-120 | every entry under its own index, later ones replacing earlier ones |
| RaftLogStore.LogStore.Truncate | src/cluster/raft/store.rs:122-127 | exactly the entries below the index stay |
| RaftLogStore.LogStore.Purge | src/cluster/raft/store.rs:129-143 | exactly the entries above the index stay, and the purge point is recorded |
| RaftLogStore.LogStore.TryGetLogEntries | src/cluster/raft/store.rs:64-73 | the entries held in the range, in index order |
| RaftLogStore.LogStore.GetLogState | src/cluster/raft/store.rs:77-87 | the purge point, and the id of the last entry held or none |
| RaftLogStore.ReadsWithoutGaps | src/cluster/raft/store.rs:64-143 | after every disciplined run a range up to an entry held reads every index once, in order |
| RaftLogStore.LastAppendedHolds | src/cluster/raft/store.rs:105-120 | of several entries for one index the last one appended is held, payload included |
| RaftLogStore.AppendReadsBack | src/cluster/raft/store.rs:64-120 | reading the range of an append gives exactly its entries, and reading below it what it gave before |
| RaftLogStore.CutsKeepTheRest | src/cluster/raft/store.rs:122-143 | what is read below a truncation or above a purge is what was read before |
| RaftLogStore.CutsAreComplete | src/cluster/raft/store.rs:122-143 | nothing is left at or above a truncation, nor at or below a purge |
| RaftLogStore.PurgedEmpty | src/cluster/raft/store.rs:77-87 | a purge past the last entry leaves no last id although the purge point is known |
| PathPattern.CompilePathPattern | src/proxy/mod.rs:1775-1827 | the loop writes the anchored concatenation of the pattern's tokens |
| PathPattern.TokensOfSpelling | src/proxy/mod.rs:1780-1821 | reading any spelled list of literals, single and double stars and braced parameters gives the list back |
| PathPattern.ColonParameter | src/proxy/mod.rs:1793-1804 | a parameter after a colon takes exactly the longest run of alphanumeric characters and underscores, of any script |
| PathPattern.UnclosedBrace | src/proxy/mod.rs:1805-1815 | an unclosed brace takes the rest of the pattern as its name |
| PatternMeaning.CompilesToTokens | src/proxy/mod.rs:1775-1827 | a pattern without unescaped syntax among its literals compiles if and only if its names are valid and different, and then to the expression of its own tokens |
| PathPattern.LanguageIsGlob | src/proxy/mod.rs:1781-1821 | the language of that expression is the direct meaning of the tokens |
| PatternMeaning.CompilationPreservesMeaning | src/proxy/mod.rs:1775-1827 | such a pattern, once it compiles, matches exactly the paths it means |
| PatternMeaning.CapturesAreSegments | src/proxy/mod.rs:61-71 | however it matches, each parameter is captured as a non-empty, slash-free part, and a matching path has such captures |
| PathPattern.SameSlashes | src/proxy/mod.rs:1783-1791 | without a double star a path has exactly the slashes of the pattern |
| PatternMeaning.SyntaxIsNotEscaped | src/proxy/mod.rs:1817-1821 | every other pattern that the model compiles, its names being valid, accepts a path it does not mean, or accepts nothing at all although it means its own text |
| PatternMeaning.LanguageIff | src/proxy/mod.rs:1775-1827 | a pattern that the model compiles, with valid names, matches exactly the paths it means if and only if no syntax stands unescaped among its literals |
| PatternMeaning.MeaningIff | src/proxy/mod.rs:1775-1827 | a pattern compiles in the model and keeps its meaning, captures included, if and only if no syntax stands unescaped among its literals and its names are valid and different |
| Modules.ModuleExecutor.AddModule | src/modules/mod.rs:141-146 | stores the compiled module, or fails without a change when the payload does not decode |
| Modules.ModuleExecutor.RemoveModule | src/modules/mod.rs:149-152 | removes this module and no other |
| Modules.ModuleExecutor.CreateContext | src/modules/mod.rs:161-169 | the sources of the named modules that are present, in order |
| Routing.FindRoute | src/proxy/mod.rs:97-108 | the first route in order that matches, none if none does |
| Routing.FoundIffStored | src/proxy/mod.rs:50-109 | a router that agrees with the store finds a route if and only if a stored route of the namespace serves the request |
| Routing.MethodRule | src/proxy/mod.rs:52-60 | a method matches if it is the wildcard or the verb itself, up to the case of ASCII letters |
| Routing.StoredRouteIff | src/proxy/mod.rs:466-480 | the routes of a namespace are exactly those stored under its name and their own |
| Routing.FoundIffRow | src/proxy/mod.rs:50-109 | a router that agrees with the store finds a route if and only if a row of the store, its methods and patterns written out, serves the request |
| Routing.ServiceCarried | src/proxy/mod.rs:482-488 | a cached route carries a service if and only if it names one that is stored under the namespace, and then that one |
| Routing.ModulesCarried | src/proxy/mod.rs:491-501 | a cached route carries exactly the stored ones of the modules it names, each from its own row, in the order of the names |
| Routing.AgreesFrame | src/proxy/mod.rs:466-523 | a router stays right while the rows of its namespace stay the same |
| Routing.OtherNamespaces | src/proxy/mod.rs:341-464 | a changelog changes the rows of no namespace but its own, and those only if it is of a kind that rebuilds |
| Proxy.ProxyState.RebuildRouter | src/proxy/mod.rs:466-523 | fails without a change for a missing namespace, else caches a router that agrees with the store |
| Proxy.ProxyState.ProcessChangelog | src/proxy/mod.rs:341-464 | store, executor and routers after one changelog, and exactly when the call succeeds |
| Proxy.ProxyState.ApplyChangelog | src/proxy/mod.rs:322-340 | keeps the changelog for the next start even when processing it fails |
| Proxy.ProxyState.RestoreFromChangelogs | src/proxy/mod.rs:553-568 | processes every kept changelog once, by time stamp, from the index as it was |
| Proxy.RoutersStep | src/proxy/mod.rs:341-464 | accepted or refused, a changelog leaves every cached router right unless it adds an undecodable module |
| Proxy.CoherentIff | src/proxy/mod.rs:383-401 | a changelog keeps the index coherent if and only if it does not add a module whose payload does not decode |
| Proxy.CoherentAlways | src/proxy/mod.rs:341-464 | after every sequence of well-formed changelogs, accepted or refused, the store is their fold and the index is coherent if and only if no stored module is undecodable |
| Proxy.CoherentFinds | src/proxy/mod.rs:97-108 | requests through a cached router find a route if and only if a stored route serves them |
| Proxy.SucceedsIff | src/proxy/mod.rs:341-464 | a call succeeds if and only if the changelog is accepted and, for routes, services and modules, the namespace is stored and the payload decodes |
| Proxy.CachedIff | src/proxy/mod.rs:341-464 | over every history, a namespace has a router if and only if a changelog about it was processed to its end, or it had one at first, and it has not been deleted since |
| Proxy.ServedSince | src/proxy/mod.rs:97-108 | from such a changelog on, a request finds a route if and only if a stored row serves it |
| Proxy.SameScripts | src/proxy/mod.rs:850-853 | the scripts the executor runs for a cached route are the payloads copied into the route, in order |
| Proxy.SortRecovers | src/proxy/mod.rs:559-560 | the sort brings any listing back to the order of application when time stamps increase strictly |
| Proxy.RestoresInOrder | src/proxy/mod.rs:553-568 | what a start-up replays is the log as it was applied, when ids differ and time stamps increase |
| Proxy.RestartStore | src/proxy/mod.rs:553-568 | a restart that finds the tables of any part of the log, as a stop between keeping and processing leaves them, ends with the store of the whole log |
| Proxy.RestartRestores | src/proxy/mod.rs:553-568 | and with a coherent index if and only if no stored module is undecodable |
| ClusterIndex.WriteKeeps | src/cluster/tempo/mod.rs:434-550 | a store write by any writer, at any moment of a rebuild, keeps the index invariant |
| ClusterIndex.InsertKeeps | src/proxy/mod.rs:521 | caching a router built from piecewise reads keeps the index invariant |
| ClusterIndex.FinishCaches | src/proxy/mod.rs:466-523 | finishing a rebuild caches the router of its namespace with the routes compiled and keeps all others |
| ClusterIndex.OthersLeaveRouters | src/proxy/mod.rs:217-281 | no other step changes a cached router, but that handling a deletion removes the one of its namespace |
| ClusterIndex.PromiseKept | src/proxy/mod.rs:217-281 | every step but a deletion keeps the promise that a namespace has a router or a rebuild for it is coming |
| ClusterIndex.ListKeeps | src/storage/mod.rs:106-119 | each step of a listing that visits the rows one by one, in any order and with writes in between, keeps it too |
| ClusterIndex.StepKeeps | src/proxy/mod.rs:217-281 | every write, send and consumer step, the row-by-row listing included, keeps the index invariant |
| ClusterIndex.CachedRouters | src/proxy/mod.rs:217-281 | in every interleaving a cached router agrees with the store or a notification about its namespace is in flight, queued or being handled, and one whose namespace is gone has its deletion still to be handled |
| ClusterIndex.QuietAgrees | src/proxy/mod.rs:217-234 | with every notification handled, every cached router is the compiled form of its stored routes |
| ClusterIndex.WriteFreeEnds | src/proxy/mod.rs:217-234 | every continuation without writes has a bounded length and leaves the store as it is |
| ClusterIndex.EventuallyAgrees | src/proxy/mod.rs:217-234 | every one that can go on only by writing has handled all notifications, and then all cached routers agree with the store as it is |
| ClusterIndex.ServedAfterWrite | src/proxy/mod.rs:217-234 | after an accepted write about a stored namespace that nobody deletes, once everything is handled the namespace has a router, and a request finds a route if and only if a stored row serves it |
| Documents.GetDocuments | src/proxy/mod.rs:1644-1679 | exactly the documents of accessible collections, local ones under short keys and others under full ones |
| Documents.SaveDocuments | src/proxy/mod.rs:1685-1749 | every row some key may write holds the data of such a key, and every other row is as before |
| Documents.SeenIff | src/proxy/mod.rs:1644-1679 | with tidy names, a document is in the map a module is given if and only if it is stored and its collection is stored and public or the module's own, under its key and with its data |
| Documents.KeyMeans | src/proxy/mod.rs:1690-1716 | what every key means: skipped, a document of the own namespace, or one of another |
| Documents.WrittenIff | src/proxy/mod.rs:1718-1732 | a key writes its row if and only if the collection is stored and open to the module, or not stored and of its own namespace |
| Documents.OwnDocumentCreated | src/proxy/mod.rs:1718-1749 | a module can create documents of a collection of its own namespace that is not stored |
| Documents.LocalKeyIff | src/proxy/mod.rs:1705-1716 | a local key leads back to its document if and only if the collection has no separator and the id no slash |
| Documents.CrossKeyIff | src/proxy/mod.rs:1693-1704 | a cross-namespace key leads back if and only if namespace and collection have no colon and the namespace no slash |
| Documents.RoundTrip | src/proxy/mod.rs:1644-1749 | saving the map that was read writes every accessible document back to its own row with the same data and touches no other row |
| Documents.PrivateUntouched | src/proxy/mod.rs:1718-1732 | whatever a module returns, documents of another namespace change only in stored collections accessible to it |
| Base64.Btoa | src/modules/mod.rs:422-440 | the loop encodes group by group |
| Base64.Atob | src/modules/mod.rs:441-459 | the loop decodes the cleaned string group by group |
| Base64.CharsAreTheAlphabet | src/modules/mod.rs:424 | the string constant is the alphabet of section 4 of RFC 4648 followed by the padding character |
| Base64.IndexInChars | src/modules/mod.rs:447-450 | looking up a character gives the place where it stands in that constant |
| Base64.OthersAreIgnored | src/modules/mod.rs:445 | cleaning keeps exactly the characters of the constant, in their places |
| Base64.DigitsAreTheBits | src/modules/mod.rs:431-434 | the four digits of a group are its 24 bits cut into sixes, big end first |
| Base64.EncodedLength | src/modules/mod.rs:422-440 | four characters of the alphabet for every three bytes or part of three |
| Base64.Padding | src/modules/mod.rs:435-436 | padding stands exactly at the end, two characters after a single last byte and one after two |
| Base64.RoundTripIff | src/modules/mod.rs:422-459 | atob(btoa(s)) is s if and only if every character is below 256, or stands first in its group of three and is below 260 |
| Base64.RoundTrip | src/modules/mod.rs:422-459 | in particular atob(btoa(s)) is s for every string of byte-valued characters |
| Base64.WideCharactersAreLost | src/modules/mod.rs:422-459 | no string with a character above 260 anywhere comes back |

## Left out

- Vote and quorum fields of Tempo messages, the write quorum size, `acks_agree` and the command status: the modelled code paths never read them (the status mirrors the committed flag).
- Tempo messages without a dot, changelog or clock: every constructor in the source sets them, and the handlers drop such messages or take clock 0.
- Membership change and discovery during a Tempo run: the member set is fixed, so a quorum is always counted among the same nodes.
- Restart of a Tempo node: its sequence numbers and commit marks live in memory only; a node may stop for good in the model, not come back.
- Overflow of 64-bit clocks and sequence numbers: natural numbers stand for them.
- The order of a `propose` call's last two events when its timeout and its answer coincide: the model lets the answer win, as the awaited channel is looked at first.
- TempoConsensus.TempoConsensus.Propose: models the call up to its wait; the wait, the answer and the timeout are steps of the node machine.
- TempoConsensus.TempoConsensus.HandleMessage: models one message handled without interruption; the interleaving with other tasks is in the node machine.
- Openraft itself (elections, votes, replication): assumed to hand every state machine the same entries in order; `save_vote` and `read_vote` are plain assignments.
- A Raft state machine without a store, which answers every changelog with the default response.
- File-backed storage (redb), serialization failures and storage errors: tables are total maps, and an item fits its type or does not.
- The module executor in cluster mode: it is updated after the rebuild and skipped when the namespace is missing, so it can lag behind the store.
- The list of domains: namespace changes do not rebuild it, so its general agreement with the store is false.
- Concurrent administrators in standalone mode, where rebuilds are not serialized; the model is sequential there.
- The default namespace created after a restore, and the change hash.
- ClusterIndex.CachedRouters: starts from no routers. At start-up in cluster mode the consumer is already running when the changelogs of an earlier standalone run and the default namespace are processed beside it (`src/main.rs:109-112`, `src/proxy/mod.rs:553-579`); these rebuilds are outside the statement.
- Rows of a resource that no modelled logic reads (headers, retry settings and the like) are not fields of the records; creation and update time of a document are one field.
- The regular-expression engine: the model treats every way to match as possible, where the engine prefers one, and has no limit on the size or depth of an expression. Syntax that it cannot read: a class other than that of the slash (a literal `[`), a backslash before a letter, a digit, `<` or `>`, and groups that set flags, such as `(?i)`.
- PatternMeaning.SyntaxIsNotEscaped: covers no pattern whose literals make up that syntax, which the engine may compile all the same.
- PatternMeaning.LanguageIff: likewise; and patterns with invalid names, of which some compile (`{a>b}`), are covered by `PatternMeaning.MeaningIff` alone.
- PatternMeaning.MeaningIff: its only-if half counts patterns with that syntax as not compiling; its if half is not affected.
- Script execution, HTTP, WebSocket and gRPC relays, TLS, DNS discovery, the command line and the admin handlers.
