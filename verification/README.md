# Verified models of Zato's protocols and state

Zato is an integration platform: servers that execute services, a broker on top of Redis that hands messages to them, a
scheduler, a load balancer in front of them, and the tools around these. This project models the parts where a mistake
shows only in some interleaving, on some input or after some sequence of calls, and proves what those parts are there for.

- `Broker.dfy`: delivery to any one of many servers. Publishers, subscribers and key expiry are events on a Redis-like store;
  a run is any sequence of events, and an event that cannot happen in a state leaves the state alone, so that every
  statement about runs is about all sequences. The class `Cluster` has the two clients' methods with whatever else may happen
  between any two Redis commands.
- `JobTiming.dfy`, `SchedulerTable.dfy`, `EndToEnd.dfy`: when a job runs and how often, which greenlets exist, and how firings,
  requests and executions add up and whose services they run, across scheduler and broker. `Clock.dfy` is the clock of all waiting loops.
- `Rbac.dfy`: the role registry with recursive deletion, its permission tables and its indexes.
- `Text.dfy`, `HaproxyConfig.dfy`, `HaproxyRoundTrip.dfy`, `HaproxySaving.dfy`, `HaproxyLines.dfy`, `HaproxyAgent.dfy`,
  `HaproxyPlace.dfy`, `HaproxyObjects.dfy`: the load balancer's configuration, character by character: the tokenizer, the parser,
  the template-driven printer, adding and removing servers, and what each of these does to a file that the other has written.
- `DistLock.dfy`, `SqlLock.dfy`: locks on an SQL server's session locks, as a state machine of many lock objects and as the
  methods of one.
- `PubSubQueue.dfy`: the delivery queue and its background cleanup as a relational model.
- `Enmasse.dfy`, `EnmasseRoundTrip.dfy`, `EnmasseObjects.dfy`: exporting objects to a file and importing the file.
- `NonceLog.dfy`: the log of OAuth nonces in a sorted set.
- `MarkovChain.dfy`: the sampler behind generated passwords.
- `Commons.dfy`: `Option` and `Result`; a `Result` names the exception that the original raises.

Objects that the original updates in place are classes here; each method's contract ties the object's new `View()` to a
function of the old one, and what is promised is proved about those functions over all runs. What comes from outside
(clock readings, the order in which a dictionary lists its keys, random draws, what other sessions do during a sleep,
whether HAProxy accepts a file) is a parameter that may have any value.

Where the code does not do what its comments, names or documentation suggest, the model follows the code, and a lemma says
exactly when the two agree:

- A scheduler restart at exactly the start date of a job that was waiting for it loses the job's first run
  (`RestartKeepsRunExactlyWhen`); at any later due instant a restart is harmless.
- The scheduler's own start-up spawns jobs that somebody has already started (`StartupSafeExactlyWhen`).
- Editing a role under an old name that nobody has fails after the id has lost its name, before the new one is recorded; under an
  old name that another role has, the edit goes through and takes that role's name away (`EditUnderWrongName`,
  `EditKeepsIndexesExactlyWhen`). Deleting a role leaves clients assigned to it (`DeleteLeavesNoDanglingExactlyWhen`).
- The load-balancer printer has no template for the health check, so saving a configuration through it loses the check
  (`HealthCheckIsLost`, `EverythingShownComesBack`). A file without a begin marker loses all its servers when one is added
  (`CallReadsBack`); a save blanks a begin marker that is indented (`SaveKeepsThePlaceExactlyWhen`); and with a begin marker no
  server can be added while there is a health check (`CallSucceedsExactlyWhen`). When HAProxy refuses a new file, the agent's
  memory keeps the edit (`RefusedCallLeavesDisagreement`), and the next accepted call saves it (`LastAcceptedReadsBack`).
- The load-balancer printer cuts the names of tagged servers at two dashes in a row, which the grammar and the agent accept in a
  name: the line of a server `a--b` prints the server `a` instead, or fails (`DashesCutTheName`,
  `TaggedServersComeBackExactlyWhen`). A name that holds `http_plain--` is read back as another name
  (`ServerTextReadsExactlyWhen`).
- Namespaces do not keep locks apart when one continues another (`SameTextExactlyWhen`).
- A nonce log sized for N keeps N - 1, and of nonces used within one second the one that sorts lower may be forgotten at once
  (`LogIsTheWindow`, `FreshNonceIsKeptExactlyWhen`).
- An export drops HTTP objects of unknown kinds and overwrites a `type` key on security definitions (`ComesBackExactlyWhen`).
- Normalizing an item leaves two differing service names as they are, although its comment says that it makes them equal
  (`NormalizedAgreeExactlyWhen`).
- The password sampler's iterator can end in an error unless the sample's last letter also occurs earlier (`NeverStuckExactlyWhen`).

## Model

| member | source | states |
|---|---|---|
| Broker.NextInv | code/zato-broker/src/zato/broker/client.py:166-212 | every Redis command of publishers and subscribers, and every expiry, keeps each message at exactly one stage and every client's knowledge consistent with the store |
| Broker.HandledAtMostOnce | code/zato-broker/src/zato/broker/client.py:166-212 | in every interleaving, a message stored by invoke_async reaches the callback of at most one client, once, with exactly the payload stored |
| Broker.Conservation | code/zato-broker/src/zato/broker/client.py:177-212 | in every reachable state a sent message is in exactly one of: unclaimed, held under its temporary name by one client, handed to a callback, expired |
| Broker.PublishedKeysExpire | code/zato-broker/src/zato/broker/client.py:179-182 | from PUBLISH on, a message's key carries a time to live under either name, since RENAME moves it along |
| Broker.StoredCannotExpire | code/zato-broker/src/zato/broker/client.py:177-182 | between SET and EXPIRE a message waits under its key, which cannot expire |
| Broker.SettledMeansHandled | code/zato-broker/src/zato/broker/client.py:184-212 | once a recipient has taken the key and its winner is idle, the message was handled if and only if it did not expire |
| Broker.DrainedMeansHandled | code/zato-broker/src/zato/broker/client.py:184-212 | from any reachable state, when the clients work through their subscriptions and nothing expires, every published message with a recipient is handled |
| Broker.Cluster.RenameIfExists | code/zato-cli/src/zato/cli/create_server.py:311-328 | the Lua script renames exactly when the source key exists and its code says which |
| Broker.Cluster.ClaimWithLua | code/zato-broker/src/zato/broker/client.py:191-195 | the Lua-based claim is the abstract claim step, and the client holds the key exactly when it won |
| Broker.Cluster.ClaimWithRename | code/zato-broker/src/zato/broker/thread_client.py:148-184 | the claim by RENAME and its error is the same abstract step |
| Broker.Cluster.InvokeAsync | code/zato-broker/src/zato/broker/client.py:166-182 | SET, EXPIRE, PUBLISH with anything in between is a run ending with the message in every subscriber's inbox |
| Broker.Cluster.OnMessage | code/zato-broker/src/zato/broker/client.py:184-212 | either client's handler, with others acting between any two commands, is a run of the model; the callback gets the payload of the key taken, and nothing runs when the key was gone |
| JobTiming.LastIndexBefore | code/zato-scheduler/src/zato/scheduler/backend.py:137-142 | the last point of the recurrence strictly before now, among the first count points |
| JobTiming.NextRunOfUnlimitedJob | code/zato-scheduler/src/zato/scheduler/backend.py:137-154 | with unlimited repeats the result is a whole number of intervals after the start, not before now and at most one interval after it; a start in the future is kept |
| JobTiming.NextRunIsFirst | code/zato-scheduler/src/zato/scheduler/backend.py:137-154 | no earlier grid point at or after now exists, except for the start itself when it equals now, which the code takes as over |
| JobTiming.RestartsStayOnGrid | code/zato-scheduler/src/zato/scheduler/backend.py:103-154 | over any sequence of restarts, each computing from the stored start date, the next run stays on the original grid, never moves back, and each promised run is kept until it is due, but for a restart at the start date |
| JobTiming.RestartKeepsRunExactlyWhen | code/zato-scheduler/src/zato/scheduler/backend.py:103-170 | for any number of repeats, a restart no later than the promised run keeps it if and only if it does not hit the start date of a job that was waiting for it; there it loses the first run |
| JobTiming.ExhaustedExactlyWhen | code/zato-scheduler/src/zato/scheduler/backend.py:143-170 | a job with m repeats is declared exhausted if and only if start + m * interval is before now, which is also the instant recorded |
| JobTiming.OneTimeStart | code/zato-scheduler/src/zato/scheduler/backend.py:103-170 | a one-time job keeps a start in the future; missed while active it is put ten seconds ahead, and otherwise it has none |
| JobTiming.Job.Clone | code/zato-scheduler/src/zato/scheduler/backend.py:99-101 | a clone keeps definition and start time and begins counting afresh |
| JobTiming.Job.GetStartTime | code/zato-scheduler/src/zato/scheduler/backend.py:103-170 | the method's result and the three flags it sets, as the timing function says |
| JobTiming.Job.FireOnce | code/zato-scheduler/src/zato/scheduler/backend.py:213-241 | one firing counts once and closes the job when its repeats are used up |
| JobTiming.Job.MainLoop | code/zato-scheduler/src/zato/scheduler/backend.py:206-246 | a job with m repeats never fires more than m times; left alone it fires exactly m times and leaves the loop as exhausted; a one-time job fires once; consecutive firings are at least an interval apart; the loop asks to sleep exactly one interval between two firings, and fires no more once unscheduled |
| JobTiming.Job.Run | code/zato-scheduler/src/zato/scheduler/backend.py:248-277 | an exhausted job never fires; otherwise the k-th firing is not before start + (k - 1) * interval, and the counts of the loop hold from the start time on; waiting asks for no more sleep than there is until the start |
| EndToEnd.NextInv | code/zato-scheduler/src/zato/scheduler/api.py:85-103 | each firing of a greenlet and each manual execution sends one request, nothing else in scheduler or broker sends any, and no greenlet fires beyond its job's limit |
| EndToEnd.ExecutesTheJobsOwnService | code/zato-scheduler/src/zato/scheduler/api.py:85-103 | over any run, every callback told to execute a job stems from a firing of a live greenlet or a manual execution in the run, under that cid, and gets the name, the service and the extra data of that very job |
| EndToEnd.ExecutedAtMostOncePerRequest | code/zato-scheduler/src/zato/scheduler/api.py:85-103 | over any run of scheduler, clients and Redis, executions of a job on all servers are at most the firings of its greenlets plus its manual executions |
| EndToEnd.ExecutedAtMostMaxRepeats | code/zato-scheduler/src/zato/scheduler/api.py:85-103 | hence at most max_repeats for each creation, edit and scheduler start-up that spawns the job, safe or not, plus one for each manual execution |
| SchedulerTable.NextGood | code/zato-scheduler/src/zato/scheduler/backend.py:305-398 | create, edit, unschedule, stop and the end of a greenlet keep the job table and its greenlets in agreement |
| SchedulerTable.OneLiveGreenletPerName | code/zato-scheduler/src/zato/scheduler/backend.py:305-398 | in every run a name has at most one live greenlet; it is registered and its job known; the job it runs is the one known by that name |
| SchedulerTable.CreateAddsTheJob | code/zato-scheduler/src/zato/scheduler/backend.py:305-325 | a job created under a new name is known, runs if and only if it is spawned, and nothing else changes |
| SchedulerTable.EditLeavesTheClone | code/zato-scheduler/src/zato/scheduler/backend.py:329-335 | after an edit exactly one job of that name exists, the clone, running if active, and other names are untouched |
| SchedulerTable.UnscheduleRemovesAll | code/zato-scheduler/src/zato/scheduler/backend.py:337-369 | unscheduling removes job, registration and live greenlet, and nothing else |
| SchedulerTable.StopEmptiesAll | code/zato-scheduler/src/zato/scheduler/backend.py:392-398 | stopping leaves both collections and the set of live greenlets empty |
| SchedulerTable.StartupSafeExactlyWhen | code/zato-scheduler/src/zato/scheduler/backend.py:436-457 | the scheduler's start-up keeps one greenlet a name if and only if none of the jobs it spawns is already live |
| SchedulerTable.StartupSpawnsExactly | code/zato-scheduler/src/zato/scheduler/backend.py:436-457 | start-up gives every listed job a live greenlet that runs it, and leaves all other registrations alone |
| SchedulerTable.Scheduler.SpawnJob | code/zato-scheduler/src/zato/scheduler/backend.py:429-434 | registers the greenlet under the job's name |
| SchedulerTable.Scheduler.Create | code/zato-scheduler/src/zato/scheduler/backend.py:305-327 | the create event on the object's collections |
| SchedulerTable.Scheduler.Unschedule | code/zato-scheduler/src/zato/scheduler/backend.py:337-363 | the unschedule event, whether something was found, and the job told to stop |
| SchedulerTable.Scheduler.UnscheduleByName | code/zato-scheduler/src/zato/scheduler/backend.py:371-384 | the first job of that name is unscheduled, and nothing happens if there is none |
| SchedulerTable.Scheduler.Edit | code/zato-scheduler/src/zato/scheduler/backend.py:329-335 | the edit event with a fresh clone |
| SchedulerTable.Scheduler.Stop | code/zato-scheduler/src/zato/scheduler/backend.py:392-398 | the loop over a copy of the jobs ends with nothing left |
| SchedulerTable.Scheduler.Startup | code/zato-scheduler/src/zato/scheduler/backend.py:436-457 | spawns exactly the known jobs whose repeats have not run out |
| Rbac.RBAC.DeleteRoleAndChildren | code/zato-server/src/zato/server/rbac_.py:35-48 | on a table with single parents, cyclic or not, the recursion ends, hits no missing key, and removes exactly the role and its transitive descendants from the table, both indexes and both permission tables |
| Rbac.RBAC.DeleteFromPermissions | code/zato-server/src/zato/server/rbac_.py:56-70 | every allow and deny triple on the role, operation or resource goes and no other |
| Rbac.RBAC.DeleteResource | code/zato-server/src/zato/server/rbac_.py:50-54 | permissions on a resource go if and only if the resource was registered |
| Rbac.RBAC.DeleteRole | code/zato-server/src/zato/server/rbac_.py:154-156 | deletes the whole family of a known role and raises, changing nothing, for an unknown one |
| Rbac.RBAC.EditRole | code/zato-server/src/zato/server/rbac_.py:148-152 | what an edit changes, including where it stops on a wrong old name; one that goes through leaves the role exactly the given parent |
| Rbac.RBAC.CreateRole | code/zato-server/src/zato/server/rbac_.py:132-146 | a new role has exactly the given parent, unless that is zero or the role itself |
| Rbac.CreationIsRecorded | code/zato-server/src/zato/server/rbac_.py:132-146 | a new role gets the name and the parent asked for, and no other role changes |
| Rbac.EditIsRecorded | code/zato-server/src/zato/server/rbac_.py:148-152 | an edit that goes through replaces name and parent, forgets the old ones, and changes no other role |
| Rbac.CreatedInherits | code/zato-server/src/zato/server/rbac_.py:132-135 | a role created under a parent descends from itself, the parent and its ancestors, and nothing else, so it goes with every family that its parent is in |
| Rbac.RBAC.CreateClientRole | code/zato-server/src/zato/server/rbac_.py:160-167 | assigns a known role to a client in both directions, and nothing else |
| Rbac.RBAC.DeleteClientRole | code/zato-server/src/zato/server/rbac_.py:169-174 | takes exactly one assignment back in both directions, or raises |
| Rbac.ChildRemoved | code/zato-server/src/zato/server/rbac_.py:41-45 | deleting one child adds its family, in the shrunken table, to what is gone, and spares the other children until their turn |
| Rbac.FamilyFound | code/zato-server/src/zato/server/rbac_.py:35-48 | when no child is left, exactly the transitive descendants are gone |
| Rbac.RunKeepsIndexes | code/zato-server/src/zato/server/rbac_.py:132-156 | over any run of creations, edits and deletions by callers with unique ids and names, the name indexes stay inverse and cover exactly the roles |
| Rbac.CreateKeepsIndexesExactlyWhen | code/zato-server/src/zato/server/rbac_.py:132-146 | creation keeps the indexes inverse if and only if id and name are both new or already belong together |
| Rbac.EditKeepsIndexesExactlyWhen | code/zato-server/src/zato/server/rbac_.py:148-152 | an edit keeps them inverse if and only if the old name was right and the new one free or the role's own |
| Rbac.EditUnderWrongName | code/zato-server/src/zato/server/rbac_.py:140-152 | under a wrong old name the edit fails after the id lost its name and nothing else changed, or takes another role's name away and goes through |
| Rbac.DeleteLeavesNoDanglingExactlyWhen | code/zato-server/src/zato/server/rbac_.py:154-156 | after a deletion no client has an unknown role if and only if no client had one of the family |
| Rbac.DeleteChangesNoOtherDecision | code/zato-server/src/zato/server/rbac_.py:35-70 | a deletion changes no decision for any role outside the family, for every decision that depends on a role's ancestors and the triples on them |
| Rbac.DeleteChangesNoOtherClient | code/zato-server/src/zato/server/rbac_.py:204-219 | nor any decision for a client none of whose roles is in the family, however the answers for its roles are summed up |
| HaproxyConfig.TokenNamesDiffer | code/zato-agent/src/zato/agent/load_balancer/config.py:47-60 | no token name of the grammar begins another, so a tag selects at most one rule |
| HaproxyConfig.MatchingOne | code/zato-agent/src/zato/agent/load_balancer/config.py:79-83 | the loop over all tokens applies exactly the one rule whose name begins the tag |
| HaproxyConfig.FilledReadsBack | code/zato-agent/src/zato/agent/load_balancer/config.py:97-131 | every printed option, parsed by its own rule, gives the option back |
| HaproxyConfig.ServerReadsBack | code/zato-agent/src/zato/agent/load_balancer/config.py:62-64 | the printed server line, parsed by its rule, gives the backend entry back, two dashes in a name included |
| HaproxyRoundTrip.ServerTextReadsExactlyWhen | code/zato-agent/src/zato/agent/load_balancer/config.py:62-84 | of the servers made of the characters of the grammar, a printed line reads back as the server if and only if `http_plain--` does not occur in its name and the token not in its free text |
| HaproxyRoundTrip.LineReads | code/zato-agent/src/zato/agent/load_balancer/config.py:121-158 | every kind of template line, printed, parses to what its tag calls for: the option, the server, the line unchanged, or nothing; a newline at its end matters only to a copied line that others follow |
| HaproxyRoundTrip.CopiedLine | code/zato-agent/src/zato/agent/load_balancer/config.py:153-156 | lines without a tag of the printer's are copied unchanged and read as they stand, with or without a newline |
| HaproxyRoundTrip.PrintThenParse | code/zato-agent/src/zato/agent/load_balancer/config.py:66-158 | for a well-formed configuration and a template whose demands it meets, printing succeeds and parsing the output is line-by-line rereading |
| HaproxyRoundTrip.PrintedParsesExactlyWhen | code/zato-agent/src/zato/agent/load_balancer/config.py:66-158 | the printed file parses if and only if the lines copied from the template do |
| HaproxyRoundTrip.EverythingShownComesBack | code/zato-agent/src/zato/agent/load_balancer/config.py:66-158 | every editable option and every server tagged in the template comes back, and no other backend does; so all backends come back if and only if exactly they are tagged as servers |
| HaproxyRoundTrip.HealthCheckNeverComesBack | code/zato-agent/src/zato/agent/load_balancer/config.py:86-158 | a health check among the backends never comes back, whatever the template |
| HaproxyRoundTrip.HealthCheckIsLost | code/zato-agent/src/zato/agent/load_balancer/config.py:121-152 | a line tagged as health check is printed blank, so the check does not come back |
| HaproxySaving.PrintSucceedsExactlyWhen | code/zato-agent/src/zato/agent/load_balancer/config.py:86-158 | for any configuration, printing succeeds if and only if log, bind and request log and everything that the template shows are there |
| HaproxySaving.NameFoundExactlyWhen | code/zato-agent/src/zato/agent/load_balancer/config.py:136-147 | the printer looks up the name that the tag spells out if and only if it holds no two dashes in a row |
| HaproxySaving.DashesCutTheName | code/zato-agent/src/zato/agent/load_balancer/config.py:136-147 | a concrete case: the tag of a server a--b prints the server a if there is one and raises KeyError if there is none |
| HaproxySaving.TaggedServersComeBackExactlyWhen | code/zato-agent/src/zato/agent/load_balancer/config.py:66-158 | with all tagged servers in the configuration, printing succeeds and each of them comes back as itself if and only if no tagged name holds two dashes in a row |
| HaproxySaving.ReadLinesWhole | code/zato-agent/src/zato/agent/load_balancer/server.py:187-187 | the lines read as the template are the file, with nothing lost or added |
| HaproxySaving.SaveReadsBack | code/zato-agent/src/zato/agent/load_balancer/server.py:183-188 | with the file itself as the template, any file that parses: saving a well-formed configuration succeeds if and only if what the file shows is there, and then the new file parses and has exactly the options and servers shown, as edited |
| HaproxyPlace.SaveKeepsThePlaceExactlyWhen | code/zato-agent/src/zato/agent/load_balancer/config.py:146-151 | after saving into any file that parses, the file still marks where servers go if and only if a begin marker stands at the very start of a line; an indented one is blanked |
| HaproxyLines.Alphabets | code/zato-agent/src/zato/agent/load_balancer/config.py:29-43 | the alphabets of the grammar, character by character |
| HaproxyLines.StatsSocketReads | code/zato-agent/src/zato/agent/load_balancer/config.py:43-49 | the statistics socket is read into its own place and nothing else changes |
| HaproxyLines.StatsUriReads | code/zato-agent/src/zato/agent/load_balancer/config.py:42-53 | the statistics address is read into its own place and nothing else changes |
| HaproxyLines.CheckReads | code/zato-agent/src/zato/agent/load_balancer/config.py:40-55 | a health check is kept among the servers with its verb and its path |
| HaproxyLines.LogReads | code/zato-agent/src/zato/agent/load_balancer/config.py:33-116 | the log line spelled out: what is printed for a log, and that it is read as that log |
| HaproxyLines.TimeoutConnectReads | code/zato-agent/src/zato/agent/load_balancer/config.py:33-116 | the same for the timeout of connections |
| HaproxyLines.TimeoutClientReads | code/zato-agent/src/zato/agent/load_balancer/config.py:33-116 | the same for the timeout of clients |
| HaproxyLines.TimeoutServerReads | code/zato-agent/src/zato/agent/load_balancer/config.py:33-116 | the same for the timeout of servers |
| HaproxyLines.MonitorUriReads | code/zato-agent/src/zato/agent/load_balancer/config.py:33-116 | the same for the monitoring address |
| HaproxyLines.BindReads | code/zato-agent/src/zato/agent/load_balancer/config.py:33-116 | the same for the address and port of the frontend |
| HaproxyLines.MaxconnReads | code/zato-agent/src/zato/agent/load_balancer/config.py:33-116 | the same for the number of connections |
| HaproxyLines.LogRequestsReads | code/zato-agent/src/zato/agent/load_balancer/config.py:33-116 | request logging is number 1 or 2 in the configuration and nolog or httplog in the file |
| HaproxyLines.ServerReads | code/zato-agent/src/zato/agent/load_balancer/config.py:62-64 | the same for a server, whose name stands in the line and in its tag |
| HaproxyLines.OptionIsPrinted | code/zato-agent/src/zato/agent/load_balancer/config.py:121-133 | wherever an option is tagged, the printer writes its value from the configuration, indented as the line was |
| HaproxyLines.CommentIsSkipped | code/zato-agent/src/zato/agent/load_balancer/config.py:77-78 | a line that is commented out is passed over whatever its tag |
| HaproxyLines.WrongKeywordRaises | code/zato-agent/src/zato/agent/load_balancer/config.py:80-83 | a tagged line that holds something else than its tag says raises |
| HaproxyLines.ServerWithoutPrefixRaises | code/zato-common/src/zato/common/haproxy.py:77-130 | a server line whose name lacks http_plain-- raises |
| HaproxyLines.UnknownLogOptionRaises | code/zato-common/src/zato/common/haproxy.py:77-130 | a request log other than nolog and httplog raises |
| HaproxyObjects.ConfigObject.SetValue | code/zato-common/src/zato/common/haproxy.py:77-130 | the object after set_value, or the exception with the object unchanged |
| HaproxyObjects.ConfigFromText | code/zato-agent/src/zato/agent/load_balancer/config.py:66-84 | the nested loops fill a fresh object with exactly what the parsing function says, or raise what it raises |
| HaproxyObjects.TextFromConfig | code/zato-agent/src/zato/agent/load_balancer/config.py:86-158 | the printing loops yield exactly what the printing function says |
| HaproxyAgent.ParseWithoutTail | code/zato-agent/src/zato/agent/load_balancer/server.py:318-320 | rstrip on a saved line never changes how it is read |
| HaproxyAgent.LineFrame | code/zato-agent/src/zato/agent/load_balancer/server.py:301-303 | the lines that are dropped hold backends and nothing else, the lines kept anything but backends |
| HaproxyAgent.NewTextLines | code/zato-agent/src/zato/agent/load_balancer/server.py:299-322 | what is on disk after the save, line by line |
| HaproxyAgent.SavedReadsBack | code/zato-agent/src/zato/agent/load_balancer/server.py:285-322 | the saved file reads back as the old configuration with exactly the given servers if it has a begin marker, with none if it has not |
| HaproxyAgent.UntaggedLinesKept | code/zato-agent/src/zato/agent/load_balancer/server.py:301-322 | lines not tagged as backends keep their order and text up to trailing whitespace, blank lines included; the only lines added are the blank ones after begin markers |
| HaproxyAgent.OtherLinesKept | code/zato-agent/src/zato/agent/load_balancer/server.py:301-322 | hence what any number of saves leaves alone: the non-blank untagged lines |
| HaproxyAgent.EditReadsBack | code/zato-agent/src/zato/agent/load_balancer/server.py:285-322 | adding re-parses to the old map plus the entry 127.0.0.1:123456 with its default checks, removing to the old map minus the name |
| HaproxyObjects.CallReadsBack | code/zato-agent/src/zato/agent/load_balancer/server.py:130-149 | memory and file agree after an accepted call, and have the servers asked for if and only if the file marks their place or none are left |
| HaproxyObjects.CallsReadBack | code/zato-agent/src/zato/agent/load_balancer/server.py:285-322 | over any run of calls, refused and failing ones included, with or without a begin marker or a health check: file and memory say what the edits make of the servers and agree on all else, and other lines stay as they were |
| HaproxyObjects.LastAcceptedReadsBack | code/zato-agent/src/zato/agent/load_balancer/server.py:285-322 | after any run on a file with a begin marker, memory has every edit, refused or not, and the file reads back every edit up to the last accepted call, the refused ones before it included |
| HaproxyObjects.CallSucceedsExactlyWhen | code/zato-agent/src/zato/agent/load_balancer/server.py:285-324 | for a file that parses, servers in memory and a name made of the characters of the grammar (and without `http_plain--`): a call goes through if and only if the edit and the file are accepted and no health check is left where servers are to be written |
| HaproxyObjects.RefusedCallLeavesDisagreement | code/zato-agent/src/zato/agent/load_balancer/server.py:141-149 | after a refused call memory and file agree only if the edit changed nothing |
| HaproxyObjects.LoadBalancerAgent.BuildFile | code/zato-agent/src/zato/agent/load_balancer/server.py:298-322 | the loops over lines and servers build exactly the new file, or raise for a health check among the servers |
| HaproxyObjects.LoadBalancerAgent.AddRemoveServer | code/zato-agent/src/zato/agent/load_balancer/server.py:285-324 | the whole outcome of a call: unknown name or action, failure after the in-memory edit, refusal, success |
| DistLock.NextInv | code/zato-distlock/src/zato/distlock/__init__.py:131-213 | every step of every lock object keeps objects and the server's lock table in agreement, even with releases interleaved |
| DistLock.MutualExclusion | code/zato-distlock/src/zato/distlock/__init__.py:109-211 | in every run an object holds its lock if and only if the server says so, and no two objects hold one id |
| DistLock.OneAcquiredAndNotReleased | code/zato-distlock/src/zato/distlock/__init__.py:200-211 | with releases undivided, of the objects of one id at most one is acquired and not released, and it is the server's holder |
| DistLock.TrySucceedsExactlyWhenFree | code/zato-distlock/src/zato/distlock/__init__.py:224-236 | asking succeeds if and only if nobody holds the id |
| DistLock.HeldUntilOwnRelease | code/zato-distlock/src/zato/distlock/__init__.py:200-211 | whatever all other objects do, in any order, a held lock stays held |
| DistLock.LateReleaseFreesNobody | code/zato-distlock/src/zato/distlock/__init__.py:200-211 | a second release, one without the lock, or one that had passed its guard too early frees nobody's lock |
| DistLock.ReleaseInSteps | code/zato-distlock/src/zato/distlock/__init__.py:200-211 | the three steps of a release with nobody in between are the undivided release |
| DistLock.NeverHeldAgain | code/zato-distlock/src/zato/distlock/__init__.py:200-211 | an object that let go never holds its lock again, however many releases are under way |
| DistLock.GivenUpForGood | code/zato-distlock/src/zato/distlock/__init__.py:143-160 | an object that gave up waiting never comes to hold the lock afterwards |
| SqlLock.SQLLock.TryAgain | code/zato-distlock/src/zato/distlock/__init__.py:143-153 | the waiting loop ends with the first try that finds the id free, or after the whole block, within one try per interval |
| SqlLock.SQLLock.TryUntilDeadline | code/zato-distlock/src/zato/distlock/__init__.py:131-162 | at most 1 + ceil(block / block_interval) tries, then the lock is held, or LockTimeout after at least block seconds; without blocking, one try |
| SqlLock.SQLLock.Enter | code/zato-distlock/src/zato/distlock/__init__.py:109-129 | the acquired flag is true if and only if the server granted the lock; a greenlet is asked for if there is a time to live |
| SqlLock.SQLLock.Release | code/zato-distlock/src/zato/distlock/__init__.py:200-211 | only the first release after an acquisition reaches the server, and it frees only this session's lock |
| SqlLock.SQLLock.WaitInGreenlet | code/zato-distlock/src/zato/distlock/__init__.py:166-181 | with other sessions acting during every sleep, the lock is given back no earlier than its time to live unless the with-block was left, it is free of this session afterwards in any case, and what others hold stays theirs; the greenlet sleeps at most ten times a second of its time to live and once more, and stops at the sleep in which the block was left |
| SqlLock.SameTextExactlyWhen | code/zato-distlock/src/zato/distlock/__init__.py:109-113 | namespace and name run together identify a lock, so two locks exclude each other if and only if they are the same or one namespace is the other continued by the beginning of its name |
| PubSubQueue.NextInv | code/zato-common/src/zato/common/odb/query_ps_delivery.py:26-78 | publishing, confirming and both cleanups keep the queue in agreement with what was published and confirmed |
| PubSubQueue.FetchFindsExactlyThePending | code/zato-common/src/zato/common/odb/query_ps_delivery.py:26-62 | after any run a fetch finds exactly the messages of the cluster published to a subscription of the key after the last run, if there was one, still to expire, and never confirmed under the key |
| PubSubQueue.LastRunTakesOutTheOlder | code/zato-common/src/zato/common/odb/query_ps_delivery.py:53-55 | the time of the last run, unless zero, takes out of the answer exactly the messages published no later |
| PubSubQueue.CleanupIsInvisible | code/zato-common/src/zato/common/odb/query_ps_cleanup.py:21-37 | erasing all cleanup steps from a run changes no fetch |
| PubSubQueue.CleanupKeepsAnswers | code/zato-common/src/zato/common/odb/query_ps_cleanup.py:21-37 | nor the ordered answers the server may give |
| PubSubQueue.ConfirmedNeverFetchedAgain | code/zato-common/src/zato/common/odb/query_ps_delivery.py:66-78 | a confirmed message is never fetched again under that key, whatever follows |
| PubSubQueue.ConfirmTakesOutOne | code/zato-common/src/zato/common/odb/query_ps_delivery.py:66-78 | a confirmation removes exactly that message from its own key's view and nothing from any other |
| PubSubQueue.AnswerExists | code/zato-common/src/zato/common/odb/query_ps_delivery.py:57-62 | the selected rows can always be listed once each by priority descending, then both times |
| PubSubQueue.AnswerIsInOrder | code/zato-common/src/zato/common/odb/query_ps_delivery.py:57-60 | in every answer a higher priority comes first, of equal ones the earlier external time, then the earlier publication |
| PubSubQueue.Odb.ConfirmPubsubMsgDelivered | code/zato-common/src/zato/common/odb/query_ps_delivery.py:66-78 | the update marks exactly the rows of that message and key, whatever their cluster |
| PubSubQueue.Odb.RemoveExpired | code/zato-common/src/zato/common/odb/query_ps_cleanup.py:21-28 | deletes and counts the cluster's expired messages, their rows with them; no expiration is never past: afterwards none is left, and everything else is |
| PubSubQueue.Odb.RemoveDelivered | code/zato-common/src/zato/common/odb/query_ps_cleanup.py:30-37 | deletes and counts the cluster's delivered rows: afterwards none is left, and everything else is |
| NonceLog.TrimIsTop | code/zato-common/src/zato/common/kvdb.py:198-198 | removing ranks 0 to -N leaves the N - 1 highest |
| NonceLog.TopAfterAdd | code/zato-common/src/zato/common/kvdb.py:189-198 | forgetting what fell out earlier never changes the window after the next addition |
| NonceLog.LogIsTheWindow | code/zato-common/src/zato/common/kvdb.py:189-204 | after any additions with a clock that never goes back, the log is exactly the top min(count, N - 1) distinct nonces by latest use and member |
| NonceLog.NoRoomNoMemory | code/zato-common/src/zato/common/kvdb.py:189-198 | with N at most one nothing is remembered |
| NonceLog.FreshNonceIsKeptExactlyWhen | code/zato-common/src/zato/common/kvdb.py:189-204 | a nonce used now is recognised at once if and only if fewer than N - 1 nonces of the same second sort after it |
| NonceLog.SecondNonceForgotten | code/zato-common/src/zato/common/kvdb.py:189-204 | a concrete case: with N = 2 the second nonce of one second is forgotten at once |
| NonceLog.ReplayIsCaught | code/zato-common/src/zato/common/kvdb.py:200-204 | a replay is recognised while fewer than N - 1 other nonces came after, counting those of the same second that sort after it |
| NonceLog.KVDB.AddOauthNonce | code/zato-common/src/zato/common/kvdb.py:189-198 | the user's log after the call; other users' logs stay |
| NonceLog.RecognisedExactlyWhen | code/zato-common/src/zato/common/kvdb.py:200-204 | after any run a nonce is recognised if and only if it was used and fewer than N - 1 others were used after it |
| NonceLog.KVDB.LookupNonce | code/zato-server/src/zato/server/connection/http_soap/url_data.py:119-130 | a known nonce is reported, an unknown one logged |
| Enmasse.NormalizeFacts | code/zato-cli/src/zato/cli/enmasse.py:137-142 | normalizing is idempotent, keeps every value that is there, and adds no other key |
| Enmasse.NormalizedAgreeExactlyWhen | code/zato-cli/src/zato/cli/enmasse.py:137-142 | afterwards both service keys are absent or equal, as documented, if and only if the item did not hold two different values |
| Enmasse.SortIsStable | code/zato-cli/src/zato/cli/enmasse.py:1207-1212 | each list ascends by id, and items that ids do not tell apart keep their order |
| EnmasseRoundTrip.SplitAdds | code/zato-cli/src/zato/cli/enmasse.py:1192-1196 | every kind's list gets exactly the HTTP objects of that kind, in order, and the split fails if and only if a key it looks at is missing |
| EnmasseRoundTrip.SplitByName | code/zato-cli/src/zato/cli/enmasse.py:1192-1196 | the four lists by name: SOAP and plain HTTP channels, SOAP and plain HTTP outgoing connections |
| EnmasseRoundTrip.WrapMoves | code/zato-cli/src/zato/cli/enmasse.py:1198-1205 | the wrapped list gets all security definitions, tagged, their own lists go, and nothing else changes |
| EnmasseRoundTrip.UntagAll | code/zato-cli/src/zato/cli/enmasse.py:1002-1020 | unwrapping gives every security service its own definitions |
| EnmasseRoundTrip.HttpSoapReturns | code/zato-cli/src/zato/cli/enmasse.py:1034-1041 | the four lists, read in any order, give the HTTP objects of known kinds back |
| EnmasseRoundTrip.WriteThenRead | code/zato-cli/src/zato/cli/enmasse.py:1188-1212 | whatever was written is read without a complaint, and every type gets exactly the stated multiset back |
| EnmasseRoundTrip.ComesBackExactlyWhen | code/zato-cli/src/zato/cli/enmasse.py:1188-1212 | a type gets the same multiset back up to normalization if and only if all HTTP objects are of known kinds, no security definition had a type key, and nothing was listed as wrapped |
| EnmasseRoundTrip.NoComplaintsExactlyWhen | code/zato-cli/src/zato/cli/enmasse.py:1002-1058 | the parser complains of nothing if and only if every type is a service's or one of the four and every wrapped definition names a security service |
| EnmasseObjects.EnMasse.WriteOutput | code/zato-cli/src/zato/cli/enmasse.py:1188-1212 | the loops produce exactly the document, or the KeyError, of the writing function, and leave the object's own lists alone |
| EnmasseObjects.InputParser.FixUp | code/zato-cli/src/zato/cli/enmasse.py:1034-1041 | the connection and transport of the kind are put back on the item |
| EnmasseObjects.InputParser.ParseItems | code/zato-cli/src/zato/cli/enmasse.py:1045-1058 | the parser's collections and complaints after the loop over types and items |
| MarkovChain.Pairwise | code/zato-common/src/zato/common/markov_passwords.py:283-296 | all pairs of consecutive elements, in order |
| MarkovChain.CountsAreOccurrences | code/zato-common/src/zato/common/markov_passwords.py:308-311 | each count is the number of adjacent occurrences in the sample, and a row exists if and only if its state was left |
| MarkovChain.CountsAreAdjacent | code/zato-common/src/zato/common/markov_passwords.py:308-311 | the same told from the sample: how often b stands right behind a, and a row for everything that something stands behind |
| MarkovChain.TotalIsDepartures | code/zato-common/src/zato/common/markov_passwords.py:313-316 | a state's total is the number of times it was left, in whatever order its successors are summed |
| MarkovChain.TotalsSumUp | code/zato-common/src/zato/common/markov_passwords.py:313-316 | all totals together are the sample's length less one |
| MarkovChain.NeverFallsThrough | code/zato-common/src/zato/common/markov_passwords.py:318-331 | the loop chooses somebody if and only if the draw is below the total |
| MarkovChain.WeightIsCount | code/zato-common/src/zato/common/markov_passwords.py:318-331 | of all draws in range exactly count-many choose a given successor |
| MarkovChain.NeverStuckExactlyWhen | code/zato-common/src/zato/common/markov_passwords.py:333-340 | no walk gets stuck if and only if the sample's last element also occurs earlier |
| MarkovChain.MarkovChain.constructor | code/zato-common/src/zato/common/markov_passwords.py:308-316 | the counting and summing loops build those counts and totals |
| MarkovChain.MarkovChain.Next | code/zato-common/src/zato/common/markov_passwords.py:318-331 | the loop's choice, or KeyError with an empty row left behind for a state that was never left |

## Left out

- Redis, SQL and network connections, reconnecting clients, a client that dies inside a handler, JSON encoding, logging and file I/O: foreign calls; only the stores' contents and atomic commands are modelled.
- Callbacks that raise: a callback counts as called.
- Broker messages to all servers at once: no claim is involved.
- The message numbers and dictionaries of `create_edit_job` and its variants in the scheduler's API: they only repack fields.
- Cron-style jobs and time zones: they rest on libraries whose behaviour is not visible here.
- JobTiming.OneTimeStart: does not say what a one-time job with a start equal to now gets, because the code then divides a recurrence by a zero interval and the library decides.
- The data format and job type in a request, and the second message by which a one-time job is deactivated on the servers; its unscheduling is an event that may come at any time.
- What the recurrence library makes of a repeat count of zero: the scheduler's API never passes one on.
- EndToEnd.ExecutedAtMostMaxRepeats: counts each greenlet by itself; two greenlets spawned from one job object share its counter, which only lets them fire less.
- Creating a job under a name that is already scheduled, and reusing a released lock object: callers are required not to.
- Roles with several parents: deletion visits a role once per deleted parent, and the registry's callers never give it two.
- Permission names, HTTP permissions and the creation of resources and triples in the role registry: plain dictionary updates.
- Carriage returns as line ends, tabs inside a server's free text (the tokenizer expands them), and non-ASCII characters in the load balancer's file.
- HaproxyRoundTrip.PrintThenParse: requires lines that the printer rewrites to hold its token once; with two the parser rejects the file the template was read from, and HaproxySaving.SaveReadsBack needs no such condition.
- HaproxyRoundTrip.EverythingShownComesBack: requires servers whose lines read back (HaproxyRoundTrip.ServerTextReadsExactlyWhen says which), and options made of the characters of the grammar.
- The lock manager's limits on the lengths of namespaces and names, and its default namespace: simple guards.
- Renaming a server in the file, server state and statistics, start and restart of HAProxy, XML-RPC: text replacement or foreign processes.
- Sessions that the SQL server drops on its own, and how lock ids are hashed from namespace and name: equal ids only exclude more.
- File locks and the Oracle lock: the first rests on inodes and file removal, the second has no implementation.
- Fetching by `get_messages` with its waiting status, staging, delivery counts and topic metadata in publish/subscribe.
- Inserting published messages and queue rows: an event of the queue's runs that adds both at once, under an id never used before.
- The queue table's unique index on cluster and message id, which allows one row for a message in a cluster: the model has a row for each subscription, as the inserting code asks for.
- PubSubQueue.AnswerExists: leaves ties in any order and takes the place of NULL as a parameter, because SQL servers differ.
- Includes, dependency scans and merging with the database in enmasse; values inside items are compared, not looked into.
- EnmasseRoundTrip.WriteThenRead: requires the export's types to be names of known services, because the parser skips all others.
- Grouping letters into the final password: string formatting.
