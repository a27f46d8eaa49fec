# Verified models of Dire Agent's concurrent and text-transforming core

Dire Agent is a daemon that runs agent conversations: each conversation has a run goroutine, a provider
session, MCP tool servers, subagents, a configuration store, a proxy to local project servers and a
sandboxed shell. This project models the parts whose correctness depends on interleavings, on whole runs or
on transformations that must keep a meaning, and proves what they keep. `dafny verify dfyconfig.toml` checks
everything; one module per file.

Concurrency is modelled as a state machine with one step per critical section (or per channel operation),
and theorems quantify over every sequence of steps. Code that updates fields or loops over buffers is a class
or a method with a loop, tied by its `ensures` to a specification function, and the lemmas are about that
function. Inputs from outside (the model's responses, hooks, the file system, MCP servers, success or failure
of writes) are parameters.

## The components

- `ConversationRuntime`: the flags, cancel function and queues of one conversation. With the settle decision
  and the closing block fused, every reachable state has at most one run and agreeing flags. As written the
  two sections leave a window, and a history is exclusive exactly when no prompt starts a run inside it;
  `WindowTrace` shows what happens otherwise: a live run that nothing can cancel, and a third run that starts
  beside it. Both versions conserve their queues.
- `CodexSession`, `AgentLoop`, `Usage`: the bounded model/tool loop over a session that appends only on success.
  The output stored for a call is what its tool, or the hook that vetoed it, produced. Across a run that returns
  without error every named call has its output, in call order and before the next user message, exactly unless
  a call was lost: one whose fields do not decode enters the history but is never run. The events of every run
  follow a grammar, and a run that is cut off has emitted a prefix of a complete trace. Usage adds up once in
  all three copies exactly when no zero total or context is misread.
- `McpClient`, `McpOwnership`, `McpShutdown`, `McpSource`: the locks of an MCP client and of the
  per-conversation cache, and ownership of sessions and pools over all interleavings. `Close` does not wait for
  a connect in progress, nor for a refresh that a connect or a caller started. So "no session is open and no
  refresh runs once it returns" holds for all continuations exactly when no such call is underway as it begins.
  A repeated `Close` returns at once, even while the first one still sweeps.
- `Redaction`, `RedactionLoops`, `Secrecy`, `ConfigMerge`, `ConfigViews`, `ConfigStore`, `ConfigMeaning`: what
  readers of the configuration see, how edits of the view are restored, and the history of the stored document.
  `Secrecy` tells from a key's own letters whether its value is hidden, and `ConfigMeaning` says field by field
  what effective settings and valid documents are. Each place is redacted by its own marks, so the public view
  shows a value that the project's effective view hides exactly when the value and its mark are on different
  sides of the project's override; `LeakingInput` is a valid one. Setting and then unsetting a sandbox mode
  restores all effective settings; the project entry itself stays exactly if it overrode something else before.
  A sandbox change of a valid document is invalid only when the 64-bit revision wraps.
- `SubagentTools`, `TeamForest`, `TeamStore`, `TeamSignals`: tool grants that only narrow along the ancestry,
  teams that stay forests within their policy, routes between members, and waiting for team members. A
  history loses no wake-up exactly if all its loads are harmless: loading a thread that an earlier daemon left
  stored as running turns it idle without notifying its team.
- `ProxyRewrite`, `ProxyRoute`, `ProxyCookie`: rewriters that are idempotent and leave nothing to rewrite.
  The route's prefix and upstream path spell the request path exactly if a slash follows the port. Every path
  the cookie rewriter writes stays under the mount. Attributes such as `Path =/x`, which section 5.2 of RFC 6265
  also reads as paths, pass through it unchanged, so a browser takes the cookie out of the mount exactly if the
  rewriter recognises some path in it and the last one, which counts, is such an attribute outside the mount.
- `ClientTransport`, `ExtensionRpc`: two request/response multiplexers. No send blocks and no reply reaches
  another call. In the extension client a reply always wins over the end of the connection. In the terminal
  client it need not: a waiting call may end with the recorded error while its reply lies unread in the channel,
  and that error is nil exactly when the reader left while handing over an event.
- `SandboxPaths`, `Bubblewrap`, `SandboxView`: the mount program of the sandbox, under the reading that a later
  mount covering a path wins. Host paths are writable exactly under the write roots, whatever their nesting, and
  readable besides exactly under what a system path or a read path resolves to, where the program shows it. A
  path given for reading is hidden exactly if it lies under one of the sandbox's own mount points and under
  neither a write root nor a mounted read path, which happens only inside a system path.
- `Truncation`: two ways to cut output to a byte limit, against UTF-8 as defined in section 4 of RFC 3629, which
  is proved to agree with the encoding of code points in its section 3.
- `Text`, `Wrappers`: the string functions, the option type and the reading of filters that the others share.

Where the code and what is expected of it differ, the model follows the code and the rows below give the
exact condition: the settle window, the lost call, `Close` overtaking a connect or a refresh, the repeated
`Close`, cancelling usage totals, the unmarked override, the stale load, the missing slash, the unrecognised
cookie path, the silent close, the unread reply, the hidden read path.

## Model

| member | source | states |
|---|---|---|
| ConversationRuntime.ThreadRuntime.Prompt | daemon/manager_runs.go:23-79 | a prompt is rejected, queued under its behaviour, or starts a run and installs its cancel function, in the source's order of checks |
| ConversationRuntime.ThreadRuntime.TakeSteering | daemon/manager_runs.go:214-218 | takes one steering message or all of them, by mode, and leaves the rest |
| ConversationRuntime.ThreadRuntime.TakeFollowUpOrSettle | daemon/manager_runs.go:220-231 | returns the joined follow-ups, and marks the conversation not running exactly when none was queued |
| ConversationRuntime.ThreadRuntime.ClearQueues | daemon/manager_runs.go:247-252 | empties both queues and nothing else |
| ConversationRuntime.ThreadRuntime.Close | daemon/manager_runs.go:183-201 | the closing block: finishing, not running, nothing to cancel |
| ConversationRuntime.ThreadRuntime.Abort | daemon/manager_runs.go:109-124 | as long as there is one run at a time, cancels the context of the live run, if any, and no other, and says whether there was one |
| ConversationRuntime.TakeQueueSplits | daemon/manager_runs.go:233-245 | taking from a queue splits it without loss, by one or whole, and takes nothing only from an empty queue |
| ConversationRuntime.LeavesOnlyWhenEmpty | daemon/manager_runs.go:129-181 | a run leaves its loop normally exactly when it found the follow-up queue empty |
| ConversationRuntime.StepExclusive | daemon/manager_runs.go:38-78 | a step keeps one run at a time with agreeing flags, exactly unless it starts a run while another waits for its closing block |
| ConversationRuntime.FusedIsExclusive | daemon/manager_runs.go:183-231 | fused: over every interleaving at most one run, `running` exactly with `cancel`, and `cancel` belongs to the live run |
| ConversationRuntime.SplitIsExclusiveIff | daemon/manager_runs.go:183-231 | as written: a history keeps one run at a time exactly when no prompt starts a run in the window |
| ConversationRuntime.WindowTrace | daemon/manager_runs.go:183-231 | a prompt in the window leaves a live run without cancel function and lets a third run start |
| ConversationRuntime.AbortHitsTheLiveRun | daemon/manager_runs.go:109-124 | fused: over every interleaving an abort cancels all live runs there are, at most one, and no other |
| ConversationRuntime.QueuesNeverBlank | daemon/manager_runs.go:24-26 | no queued message is ever blank |
| ConversationRuntime.QueueConservation | daemon/manager_runs.go:43-61 | between clears, what runs took followed by what is queued is what was accepted, in order, in both queues and modes |
| Text.TrimSpaceMeans | daemon/manager_runs.go:24-26 | trimming takes the white space off both ends, all of it and nothing else |
| Usage.Accumulate | chatui/usage.go:15-36 | one report is added: sums add, a missing total or context is input plus output, zero context and window are ignored |
| Usage.FoldIsSummary | agentloop/loop.go:260-281 | folding any reports gives the sums and the last non-zero context and window |
| Usage.DaemonAgrees | daemon/manager_events.go:48-55 | skipping all-zero reports, as the daemon does, changes nothing on any sequence |
| Usage.FoldIsOneAdditionIff | daemon/manager_events.go:108-129 | folding each step onto the thread equals adding the run's total once, exactly when no zero total or context of it is read as input plus output by mistake |
| Usage.FoldIsOneAddition | daemon/manager_events.go:108-129 | in particular for non-negative counters |
| Usage.NegativeTotalsBreakIt | daemon/manager_events.go:108-129 | two reports whose totals cancel break it |
| CodexSession.Session.Step | provider/codex/session.go:40-152 | a failed step or one without input leaves the history; a successful one appends outputs, user messages and the model's items in that order |
| CodexSession.CollectToolCalls | provider/codex/response_result.go:12-31 | the decoded named calls among the stream items, in order, with invalid arguments replaced |
| CodexSession.CollectHistoryItems | provider/codex/response_result.go:89-103 | every stream item that is an object or null becomes a history item |
| CodexSession.CollectImages | provider/codex/session.go:154-167 | images without data or type are dropped, the others kept in order |
| CodexSession.ToolCallsMean | provider/codex/response_result.go:12-31 | the calls to run are exactly the items of kind `function_call` with a name, in order, with their own id, name and arguments, or `{}` for invalid ones |
| CodexSession.HistoryItemsMean | provider/codex/response_result.go:89-103 | the model items stored are exactly those that are an object or null, in order |
| CodexSession.ImageContentMeans | provider/codex/session.go:154-167 | the images sent are exactly those with data and a type that is not blank, in order |
| CodexSession.MessagesMean | provider/codex/session.go:53-78 | the prompts stored are exactly those that are not blank, in order, and the first of the request carries the images |
| CodexSession.AdditionsMean | provider/codex/session.go:48-80 | a request stores its results in order, each under its call id and failed ones marked, then its prompts, or its images alone |
| CodexSession.StepWaits | provider/codex/session.go:48-90 | a step whose results answer the waiting calls leaves exactly its own decoded calls waiting, and the history in order |
| CodexSession.InOrderAt | provider/codex/session.go:48-90 | in every prefix outputs answer calls position by position, and a user message comes only when all are answered |
| CodexSession.AnsweredAfterIff | provider/codex/response_result.go:12-31 | what a run adds leaves every named call answered, in order, exactly when nothing waits and no named call was lost because it does not decode |
| CodexSession.LostCallIsNeverAnswered | provider/codex/response_result.go:89-103 | a named call whose arguments are no string is stored in the history, never run and never answered |
| AgentLoop.Loop.Stream | agentloop/loop.go:128-152 | the callback emits an update for every delta of text and reasoning, in order; the reasoning starts exactly if a piece of it comes, once and before its end, and ends where the model says so after some that is not blank |
| AgentLoop.Loop.StreamAll | agentloop/loop.go:156-158 | a step that completes also ends reasoning that is not blank and was left open |
| AgentLoop.Loop.RunTool | agentloop/loop.go:181-216 | a vetoed call gives the hook's message as an error, a name outside the tools the unknown-tool error, any other what the tool gives for the hook's name and arguments, with a failure behind a line break, each as the after-tool hooks leave it |
| AgentLoop.Loop.RunTools | agentloop/loop.go:171-225 | every call gets one start event, one end event and one result with its id, in call order, and each result is what its hook or its tool produced |
| AgentLoop.Loop.ModelStep | agentloop/loop.go:119-158 | a successful step stores its request and the model's items, leaves its own calls waiting and returns them with the text and usage; a failed one changes no history |
| AgentLoop.Loop.Iterate | agentloop/loop.go:111-244 | one iteration keeps grammar, answers and usage, and either fails, ends the run with nothing waiting, or goes on with a request of exactly the produced results and the queued messages as the hooks leave them |
| AgentLoop.Loop.Decide | agentloop/loop.go:240-243 | a turn ends the run exactly if it had neither calls nor messages, and else goes on with both |
| AgentLoop.Loop.Cycle | agentloop/loop.go:111-246 | at most the step limit of iterations, keeping grammar, answers, requests and usage |
| AgentLoop.Loop.RunWithImages | agentloop/loop.go:87-247 | the stored output of every call is what its hook or its tool produced, the history is what was there, then request by request its additions and the model's items, and the first request carries the prompt as the hooks leave it and the images; if every named call had its output before, every one has it afterwards exactly when nothing waits, as on success, and no named call was lost; events follow the grammar and are complete exactly on success; at most MaxSteps requests, images only in the first, each later one with a result or message; usage is the fold |
| AgentLoop.CutTraceIsPrefixOfComplete | agentloop/loop.go:87-247 | wherever a run's trace is cut off, it is a prefix of a complete trace |
| AgentLoop.Loop.StatesFollowEvents | agentloop/loop.go:296-300 | the recorded grammar states are those of the emitted events |
| AgentLoop.ThreadTotals | daemon/manager_events.go:36-56 | what the daemon adds to a thread during a run is what the run returns, added once, exactly when no zero total or context of it is misread, as for non-negative counters |
| McpClient.ServerRuntime.InstallSession | mcpclient/lifecycle.go:16-39 | installs the session under a new generation, empties the table and hands back the session it replaced |
| McpClient.ServerRuntime.InstallTools | mcpclient/lifecycle.go:41-53 | installs a listing exactly if a session is there and the generation is still the listing's |
| McpClient.ServerRuntime.Sweep | mcpclient/lifecycle.go:94-106 | takes the session out, advances the generation and hides the tools |
| McpClient.ListAllTools | mcpclient/client.go:196-219 | a result is the concatenation of one cursor chain without repeats up to the empty cursor; failure means a failed page, a repeated cursor or a thousand pages |
| McpClient.FollowedMeans | mcpclient/client.go:196-219 | in a cursor chain the first cursor is empty, each next one is the one that the page before named, and all are new |
| McpClient.PagesAreJoined | mcpclient/client.go:203-210 | the tools of every page stand in the result, whole, in order and behind those of the pages before |
| McpOwnership.StepOwned | mcpclient/client.go:97-194 | every step keeps each connected session in exactly one place |
| McpOwnership.ExactlyOnePlace | mcpclient/client.go:97-194 | over every interleaving a session is held by a call, installed, with Close, or closed, in exactly one place, and closed at most once |
| McpOwnership.InstalledTools | mcpclient/lifecycle.go:41-53 | an installed session's tool table is empty or was listed from that session |
| McpOwnership.ConnectInstalls | mcpclient/client.go:97-138 | a connect that nothing overtakes opens a session, installs it with the next generation and an empty table, and closes the one before |
| McpOwnership.RefreshPublishesIff | mcpclient/lifecycle.go:41-53 | a refresh publishes exactly what it listed, exactly if the server still has a session of the generation it read, and touches no other server |
| McpOwnership.AfterClose | mcpclient/lifecycle.go:83-115 | once Close has returned nothing is installed, no tool is visible, no refresh that Close counts is left, and a session is open exactly when a connect call holds it |
| McpShutdown.NothingStaysOpenIff | mcpclient/lifecycle.go:83-115 | whatever follows, no session is open once Close has returned, exactly if no connect was underway when Close was called |
| McpShutdown.RepeatedCloseIff | mcpclient/lifecycle.go:83-90 | a repeated Close returns at once and changes nothing, and no session is open then exactly if no call, no server and not the first Close has one |
| McpShutdown.RepeatedCloseReturnsEarly | mcpclient/lifecycle.go:83-90 | a repeated Close that returns while the first one still sweeps and a session is installed and open |
| McpShutdown.NoRefreshAfterCloseIff | mcpclient/lifecycle.go:83-115 | whatever follows, no refresh runs once Close has returned, exactly if none was underway that Close does not wait for: a connect's own or one that a caller asked for |
| McpShutdown.CloseEndsAround | mcpclient/lifecycle.go:91-115 | Close can run to its end whatever one call is doing that it does not wait for, and leaves that call where it was |
| McpShutdown.ConnectRefreshOutlivesClose | mcpclient/client.go:125-138 | a connect that has just installed its session still refreshes when Close has returned |
| McpShutdown.LateRefreshChangesNothing | mcpclient/lifecycle.go:41-53 | a refresh that ends after Close has returned changes no session, generation or tool |
| McpOwnership.CloseOvertakesConnect | mcpclient/lifecycle.go:83-115 | Close can return while a connect holds a session, which that call then closes |
| McpSource.Cache.Lookup | capability/mcp.go:69-78 | a hit needs the same fingerprint; a closed source refuses |
| McpSource.Cache.Publish | capability/mcp.go:88-105 | the second check: publishes the pool or leaves it to its caller, and returns the pool to close |
| McpSource.Cache.Close | capability/mcp.go:108-123 | the first close takes every cached pool, later ones take none |
| McpSource.ExactlyOnePlace | capability/mcp.go:62-123 | over every interleaving a pool is with one call, cached, with Close, or closed by one call |
| McpSource.AfterClose | capability/mcp.go:108-123 | after Close nothing is cached, and a pool is open exactly while a Resolve call holds it |
| Redaction.RoundTrip | configuration/redact.go:86-235 | restoring the unedited public view of a document gives the document back |
| Redaction.RestoredAt | configuration/redact.go:86-235 | in an edited view each value is the old one where the placeholder was kept and the key existed, and the edited one elsewhere, at every place |
| Redaction.PublicAt | configuration/redact.go:5-84 | the public view replaces exactly the secret keys' values at every place |
| Redaction.MarksComeBack | configuration/redact.go:117-166 | a key marked secret is marked again where its placeholder was sent back, even if the client dropped the mark |
| Redaction.KeepsHiding | configuration/redact.go:198-235 | a value shown as the placeholder and sent back as it is shown as the placeholder again |
| Redaction.PublicHidesExactlySecrets | configuration/redact.go:5-84 | two documents have equal views exactly when they differ only in values that are secret by the marks of their own place or by their key |
| Redaction.PublicIsIdempotent | configuration/redact.go:5-84 | the public view of a public view is itself |
| RedactionLoops.Marks | configuration/redact.go:237-245 | a key looks secret exactly if it spells one of eight words at some place, letters without case and `_` also as `-` or a space |
| RedactionLoops.RedactValues | configuration/redact.go:77-84 | the loop replaces exactly the marked and secret-looking keys |
| RedactionLoops.PublicConfig | configuration/redact.go:5-27 | the nested loops compute the public view of a whole document |
| RedactionLoops.RestoreMarked | configuration/redact.go:212-235 | one loop restores values and adds back the marks |
| RedactionLoops.RestorePatchValues | configuration/redact.go:137-166 | a patch's values are restored first, then marks of unchanged values are added |
| RedactionLoops.RestoreRedacted | configuration/redact.go:86-115 | the nested loops compute the restoration of a whole document |
| Secrecy.LooksSecretIff | configuration/redact.go:237-245 | the marker test, told from the key's own letters and the eight words |
| Secrecy.SeveralSeparators | configuration/redact.go:237-245 | `X-Api-Key`, `DB_PASSWORD` and `session token` look secret |
| Secrecy.HarmlessKey | configuration/redact.go:237-245 | `DATABASE_URL` does not |
| Secrecy.GlobalViewMeans | configuration/redact.go:5-84 | in the public view every global server and source shows the placeholder exactly at the keys that its own marks name or that spell a secret, and the value elsewhere |
| Secrecy.ProjectViewMeans | configuration/redact.go:5-84 | the same for the servers and sources that a project patches |
| Secrecy.ViewKeepsTheRest | configuration/redact.go:5-84 | besides values and marks the public view shows the document as it is |
| Secrecy.RestoredValue | configuration/redact.go:86-235 | in a restored edit a placeholder is the old value at its place if there is one, and any other edit stays |
| Secrecy.RestoredMarks | configuration/redact.go:117-235 | the restoration drops no mark and adds only marks that the old document has at that place |
| Secrecy.RestorationKeepsTheRest | configuration/redact.go:86-235 | besides values and marks the restoration changes nothing |
| ConfigMerge.ApplyMcpPatch | configuration/merge.go:100-115 | patched servers are changed or made, then the listed ones removed |
| ConfigMerge.ApplyExtensionPatch | configuration/merge.go:162-209 | the same for extension sources |
| ConfigMerge.EffectiveSettings | configuration/merge.go:5-71 | a project's settings are the global ones with its patch applied, and the global ones for an unknown project |
| ConfigMerge.PatchedServerMeans | configuration/merge.go:100-160 | which servers a project has, and for each whether it is the inherited one or has the patch's fields, values and marks over the inherited or empty ones |
| ConfigMeaning.ToolsMean | configuration/merge.go:30-40 | each tool setting is the project's if its patch has one, and the global one otherwise |
| ConfigMeaning.SourcesMean | configuration/merge.go:162-209 | which sources a project has, and for each whether it is the inherited one or has the patch's fields, values and marks over the inherited or empty ones |
| ConfigMeaning.SectionsMean | configuration/merge.go:15-71 | the other sections are the global ones, each field the patch's where the patch has one |
| ConfigMeaning.RestIsInherited | configuration/merge.go:5-14 | what a project does not patch it inherits |
| ConfigViews.InEffect | configuration/merge.go:117-160 | the values and the marks in effect come from the project's patch or the global settings, each on its own |
| ConfigViews.LeaksIff | configuration/store.go:68-91 | a value in effect that the effective view hides is shown by the public view exactly if its key does not look secret and its mark is on the other side of the project's override |
| ConfigViews.UnmarkedOverrideLeaks | configuration/merge.go:133-138 | a project that overrides a marked value without marking it again shows it |
| ConfigViews.LeakingInput | configuration/merge.go:133-138 | a document for which that happens, and which validates whenever its server's other fields do |
| ConfigStore.EditSandbox | configuration/store.go:170-205 | the edit of one project entry, or nothing when the document already says so |
| ConfigStore.Store.LoadOrCreate | configuration/store.go:223-248 | a missing file is created from the defaults, a corrupt or invalid one refused |
| ConfigStore.Store.Update | configuration/store.go:116-146 | answers done exactly if the document opens, names the expected revision, the restored replacement at the next revision validates and the write succeeds; then that is the file and its public view the answer, and otherwise the file stays and the answer names the first check that failed |
| ConfigStore.Store.SetProjectSandbox | configuration/store.go:150-215 | refuses malformed requests and stores nothing when nothing changes; else writes exactly what was asked for at the next revision if that validates and the write succeeds, and shows the file |
| ConfigStore.ChangeIsAskedFor | configuration/store.go:164-205 | the document a sandbox request leads to gives the project the asked mode, or none, and keeps everything else |
| ConfigStore.Store.ValidateAndWrite | configuration/store.go:207-214 | a candidate that validates is written and shown, any other changes nothing |
| ConfigStore.HistoryIsLinear | configuration/store.go:116-248 | in every history the stored document validates, and its revision is the starting one plus the number of calls that changed the stored document |
| ConfigStore.StaleUpdateRefused | configuration/store.go:127-129 | after any commit an update that names the old revision stores nothing |
| ConfigStore.UneditedUpdate | configuration/store.go:116-146 | sending back the unedited view stores the same document at the next revision, valid unless the revision wraps |
| ConfigStore.SetChangesOneSandbox | configuration/store.go:150-215 | setting a mode changes only that project's effective sandbox |
| ConfigStore.UnsetInheritsSandbox | configuration/store.go:150-215 | unsetting gives the project the global sandbox and changes nothing else |
| ConfigStore.SetThenUnset | configuration/store.go:150-215 | where no override was set, setting then unsetting restores all effective settings; the entry stays exactly if it overrode more |
| ConfigStore.SandboxChangeIsValid | configuration/validate.go:15-67 | a sandbox change of a valid document is valid exactly unless the revision wraps |
| ConfigMeaning.ValidMeans | configuration/validate.go:15-67 | a document validates exactly if version, revision, global settings, and every project's name, folder, removals and effective settings are in order, check by check |
| ConfigMeaning.SettingsMean | configuration/validate.go:81-138 | settings validate exactly if modes are known, lists have neither blanks nor repeats, names are in order and every marked key has a value |
| ConfigMeaning.NameMeans | configuration/validate.go:12-12 | a name has up to 128 letters, digits, dots, dashes and underscores and starts with a letter or digit |
| SubagentTools.NarrowLocalTools | daemon/subagent_permissions.go:61-71 | built-ins missing from the local list go, everything else stays |
| SubagentTools.NarrowByAncestor | daemon/subagent_permissions.go:38-51 | one ancestor keeps a built-in only if its own list has it, and anything only if it is granted that or is a root |
| SubagentTools.EffectiveSubagentTools | daemon/subagent_permissions.go:14-59 | the walk ends on any parent graph; it succeeds exactly when the ancestry ends within 128 parents without coming back, and then yields, in the order of the grant, what is granted, in the own list if built in, and for every ancestor in its list if built in and in its grant unless it is a root |
| SubagentTools.EffectiveMeans | daemon/subagent_permissions.go:14-59 | exactly which tools are effective, told from grants, lists and parents along the ancestry |
| SubagentTools.SelectMeans | daemon/subagent_permissions.go:53-58 | the effective tools keep the order of the grant |
| SubagentTools.CompletesMeans | daemon/subagent_permissions.go:22-37 | the walk succeeds exactly if some ancestry of at most 128 parents ends and does not come back to the thread |
| SubagentTools.WithinGrantAndLists | daemon/subagent_permissions.go:11-13 | no tool beyond the spawn grant or an ancestor's list |
| SubagentTools.ChildWithinParent | daemon/subagent_permissions.go:11-13 | whatever the ancestors' settings are, a child gets no tool its subagent parent does not get |
| TeamForest.ReachableForest | daemon/subagents.go:135-242 | every team reachable by spawns, deletions and runs is a forest: depth, shared root and parents agree, depths and child counts are within policy |
| TeamForest.SpawnDoneIff | daemon/subagents.go:135-242 | a spawn is made exactly if the parent is stored, the profile is known, spawning is enabled, not too deep and allowed to the parent's profile, the parent's children and the team's running members are below their limits, and the id is new; it adds one idle child below the parent |
| TeamForest.SpawnRefusedBecause | daemon/subagents.go:135-169 | a refused spawn names a check that fails |
| TeamForest.DeleteDoneIff | daemon/manager_runtime.go:117-150 | a thread is deleted exactly if it is stored, does not run and is nobody's parent, and only it goes |
| TeamForest.TeamHoldsTheChildren | daemon/subagents.go:152-169 | the team listing contains every child of the parent, so the limit counts them all |
| TeamForest.IsAncestor | daemon/subagent_messages.go:255-268 | on a forest the walk ends and finds exactly the transitive parents |
| TeamForest.RootIsTopmost | daemon/subagents.go:271-276 | a member's root id names a stored root at the top of its chain |
| TeamForest.RootIsAncestor | daemon/subagents.go:271-276 | the root is an ancestor of every other member |
| TeamForest.AncestryIsAcyclic | daemon/subagent_messages.go:255-268 | ancestors are in the same team, and no two members are each other's |
| TeamForest.RootIsDeletedLast | daemon/manager_runtime.go:117-150 | a root can be deleted only when its team has no other member |
| TeamForest.AuthorizeTeamRoute | daemon/subagent_messages.go:146-181 | the checks, in order, decide the route; looking at the team alone finds the right ancestors |
| TeamForest.RouteMeaning | daemon/subagent_messages.go:146-181 | a route is open exactly between two members of one team related by descent, or any two if siblings may talk |
| TeamForest.RouteIsSymmetric | daemon/subagent_messages.go:146-181 | who may address whom is symmetric |
| TeamStore.ListTeamThreads | daemon/subagent_messages.go:183-208 | the filtered listing holds exactly the team |
| TeamStore.EnforceTeamLimits | daemon/subagents.go:152-169 | counting the listing counts the parent's children and the running members |
| TeamStore.Store.SpawnAgent | daemon/subagents.go:43-111 | a spawn passes the checks in order, the tools after the policy and before the limits, and then adds one child with its grant; a refusal changes nothing, and a child whose first prompt fails stays, not running |
| TeamStore.EarlyRefusalIff | daemon/subagents.go:135-151 | what the checks before the tools let through |
| TeamStore.AfterRun | daemon/subagents.go:84-111 | so a reachable store stays reachable, and a forest within its policy |
| TeamStore.Store.DeleteThread | daemon/manager_runtime.go:117-150 | only a stored, idle thread without children is deleted |
| TeamStore.NarrowAgentTools | daemon/subagents.go:171-212 | a grant is the base or exactly the requested names, and any blank, repeated or ungranted request fails |
| TeamStore.GrantWithinParent | daemon/subagents.go:171-212 | a grant names only tools of the parent, and of the profile if it lists any |
| TeamStore.GrantableIff | daemon/subagents.go:171-212 | a wish is granted exactly if it asks for nothing, or, for no chat, only for new names that parent and profile have |
| TeamStore.GrantMeans | daemon/subagents.go:171-212 | a chat gets nothing, a request its trimmed names in order, and no request every tool that parent and profile have |
| TeamSignals.Manager.TeamSignalLocked | daemon/subagent_messages.go:270-277 | the team's current signal, made on first use |
| TeamSignals.Manager.NotifyTeamLocked | daemon/subagent_messages.go:279-284 | closes the current signal and puts a new one in its place |
| TeamSignals.Manager.Deliver | daemon/subagent_messages.go:69-72 | appends to the recipient's mailbox, closes the team's signal and puts a new one in its place, in one critical section |
| TeamSignals.Manager.DrainAgentMailbox | daemon/subagent_messages.go:126-132 | returns the whole mailbox and empties it |
| TeamSignals.Manager.ForgetThread | daemon/manager_runtime.go:147-148 | drops a deleted thread's mailbox and notifies its team |
| TeamSignals.SignalsCloseOnce | daemon/subagent_messages.go:270-290 | over every interleaving no signal is closed twice, and drained then remaining messages are those sent, in order |
| TeamSignals.StepKeepsNotMissed | daemon/subagent_messages.go:84-124 | every step but a load keeps each waiter on an open signal from missing its wake-up |
| TeamSignals.LoadKeepsIff | daemon/manager_runtime.go:94-103 | loading a thread stored as running loses a wake-up exactly when an open waiter saw it running and nothing is owed |
| TeamSignals.NoWaiterMissesItsWakeup | daemon/subagent_completion.go:17-45 | over every interleaving with harmless loads, a waiter with mail or a stopped agent is owed a notify |
| TeamSignals.NeverLostIff | daemon/subagent_completion.go:17-45 | a history loses no wake-up in any of its states exactly if all its loads are harmless |
| TeamSignals.CleanStart | daemon/manager_runs.go:183-207 | a daemon that starts with no thread stored as running never loses a wake-up |
| TeamSignals.StaleLoadLosesWakeup | daemon/manager_runtime.go:94-103 | three steps that lose one otherwise |
| ProxyRewrite.RewriteQuotedRootPaths | daemon/project_proxy.go:505-527 | the loop over characters computes the rewriting |
| ProxyRewrite.RewrittenQuotedIsSettled | daemon/project_proxy.go:505-527 | after it every quoted rooted path, but `//` and `/>`, is under the mount |
| ProxyRewrite.QuotedOnlyMounts | daemon/project_proxy.go:505-527 | the output is the text with the mount put in before waiting paths, and nothing else changed |
| ProxyRewrite.QuotedIsIdempotent | daemon/project_proxy.go:505-527 | rewriting twice is rewriting once, for every text and mount |
| ProxyRewrite.QuotedUnchangedIff | daemon/project_proxy.go:505-527 | a text is unchanged exactly if nothing was left to mount |
| ProxyRewrite.MountsAfterIff | daemon/project_proxy.go:505-527 | the places that wait for the mount, character by character: a quote, then a slash, no second slash or angle bracket, and not yet the whole mount |
| ProxyRewrite.RewriteUnquotedRootMarker | daemon/project_proxy.go:443-466 | the search loop computes the rewriting behind a marker |
| ProxyRewrite.RewrittenMarkerIsSettled | daemon/project_proxy.go:443-474 | after it every path behind the marker, but `//`, is under the mount |
| ProxyRewrite.MarkerOnlyMounts | daemon/project_proxy.go:443-474 | the output is the text with the mount put in behind markers that wait for it, and nothing else changed |
| ProxyRewrite.MarkerIsIdempotent | daemon/project_proxy.go:443-474 | rewriting twice is rewriting once, for every text, mount and fitting marker |
| ProxyRewrite.MarkerUnchangedIff | daemon/project_proxy.go:443-474 | a text is unchanged exactly if nothing was left to mount |
| ProxyRewrite.MarkerSettledIff | daemon/project_proxy.go:443-474 | nothing waits exactly if every marker before a slash stands before `//` or before the whole mount, which ends the text or is followed by one of ten characters |
| ProxyRewrite.UrlMarkerFits | daemon/project_proxy.go:387-387 | the style sheet marker fits every mount |
| ProxyRoute.ParseProjectProxyRoute | daemon/project_proxy.go:162-192 | succeeds exactly if a port from 1 to 65535 in canonical notation ends the path or stands before a slash, and splits the path there |
| ProxyRoute.NamesMeans | daemon/project_proxy.go:162-192 | a path names a server if it is `/project/server/`, the number of a port from 1 to 65535, and nothing or a rest that starts with a slash |
| ProxyRoute.SplitsMeans | daemon/project_proxy.go:186-191 | prefix and upstream path are the parts of the request path, or the whole of it and a slash |
| ProxyRoute.CanonicalIff | daemon/project_proxy.go:183-185 | digits are canonical exactly if they are zero or do not start with it |
| ProxyRoute.ConcatenatesIff | daemon/project_proxy.go:186-191 | prefix and upstream path spell the request path exactly if the request path has a slash behind the server path; without one the prefix is the whole request path |
| ProxyRoute.ParsedPrefixMounts | daemon/project_proxy.go:186-191 | every parsed prefix is one that all rewriters' theorems cover |
| ProxyCookie.RewriteAttribute | daemon/project_proxy.go:293-318 | one attribute: a path is mounted, a loopback domain dropped, the rest kept |
| ProxyCookie.MountedPathMeans | daemon/project_proxy.go:296-308 | a given path is trimmed, rooted, and gets the mount in front unless it lies under it |
| ProxyCookie.PathAttributeIff | daemon/project_proxy.go:294-295 | which attributes are paths, letter by letter |
| ProxyCookie.DomainAttributeIff | daemon/project_proxy.go:309-309 | which attributes are domains, letter by letter |
| ProxyCookie.LocalDomainIff | daemon/project_proxy.go:310-311 | a loopback domain is a loopback host that dots may surround |
| ProxyCookie.LoopbackHostIff | daemon/project_proxy.go:549-552 | a loopback host is one of three names, letters in either case, that brackets may surround |
| ProxyCookie.RewriteProjectCookie | daemon/project_proxy.go:288-323 | the loop computes the rewritten cookie |
| ProxyCookie.EmittedPathsStayUnder | daemon/project_proxy.go:296-308 | every `Path` it emits path-matches only requests under the mount (section 5.1.4 of RFC 6265) |
| ProxyCookie.OthersAreKept | daemon/project_proxy.go:309-317 | besides paths and loopback domains every attribute is kept, in order, and none is added |
| ProxyCookie.CookieIsIdempotent | daemon/project_proxy.go:288-323 | rewriting twice is rewriting once, for every cookie and mount |
| ProxyCookie.CookieStaysUnderIff | daemon/project_proxy.go:288-323 | a browser keeps the rewritten cookie under the mount (sections 5.2.4 and 5.3 of RFC 6265), for any default path, exactly if no part named a path to the rewriter or the last part that names one to the browser is recognised or lies under the mount |
| ProxyCookie.CookieLeavesIff | daemon/project_proxy.go:288-323 | for a request below the mount the cookie leaves it exactly if some path is recognised and a later unrecognised one, the last, is rooted outside the mount |
| ProxyCookie.SpacedPathEscapes | daemon/project_proxy.go:293-318 | a whole cookie whose last path has a space before the equals sign, and which a browser keeps at the root |
| ClientTransport.Transport.RegisterCall | client/transport.go:18-27 | one step of the model: refuses once the reader has finished, else registers a new empty channel under the request id |
| ClientTransport.Transport.RemovePending | client/transport.go:97-101 | takes one id out and touches no channel |
| ClientTransport.Transport.Deliver | client/transport.go:76-82 | the model's receive and push: the reply goes into the channel registered for its id, which is free, and the id is no longer pending |
| ClientTransport.Transport.Fail | client/transport.go:103-116 | the model's failing and draining: keeps the first error and sends the failure to exactly the channels that some pending id names, each of them free |
| ClientTransport.RepliesReachTheirCalls | client/transport.go:57-116 | over every interleaving no send blocks, and a reply reaches only the call with its id, at most once |
| ClientTransport.EveryCallCanReturn | client/transport.go:29-54 | over every interleaving: once the reader has finished, every call in flight can return by its own steps alone, whichever way its write goes, with the one reply in its channel, its own, or if there is none with the recorded error, which is nil exactly if the reader left on an event |
| ClientTransport.NoErrorIff | client/transport.go:86-94 | at the end no error is recorded exactly if the reader left while handing over an event |
| ClientTransport.ClosedWithoutErrorIff | client/transport.go:51-53 | a call that ends with the reader returns nil exactly in that case |
| ClientTransport.CloseCanLookLikeSuccess | client/transport.go:51-53 | six steps after which a call has returned nil and was never sent a reply |
| ClientTransport.EndsNextIff | client/transport.go:29-54 | of all steps that anyone can take, which ends a call in flight may come to next |
| ClientTransport.MayMissItsReplyIff | client/transport.go:38-54 | a call that was sent its reply may end without it exactly if its write fails, it waits and is cancelled, or it waits and the reader has finished |
| ClientTransport.SentRepliesAreTakenOrUnread | client/transport.go:38-54 | over every interleaving a reply sent to a call that has returned was taken by it or lies unread in its channel |
| ClientTransport.ReplyIsLeftUnread | client/transport.go:38-54 | eight steps after which a call has returned nil with its reply unread in the channel |
| ClientTransport.NoCallIsForgotten | client/transport.go:14-116 | with unique ids a call in flight is pending, or its one reply is on the way, in its channel or taken |
| ClientTransport.ReplyReachesItsCall | client/transport.go:38-82 | with unique ids, a waiting call that was sent nothing returns with the very reply that the server then sends under its id, and no other call is touched |
| ClientTransport.FailureReachesEveryCall | client/transport.go:103-116 | when the connection fails every call in flight has been sent a reply or the failure |
| ExtensionRpc.Connection.Register | extensions/stdio.go:204-214 | the model's start of a call: refuses with the connection's error once it is done, else registers the new id |
| ExtensionRpc.Connection.Finish | extensions/stdio.go:222-230 | the model's two ending steps: only the first call records its error and closes the done channel |
| ExtensionRpc.CallTakesItsFirstReply | extensions/stdio.go:141-202 | a call takes at most one reply, the first offered to it, with its own id |
| ExtensionRpc.ReplyWinsOverTheEnd | extensions/stdio.go:146-153 | a call that ends with the connection's error was offered no reply before, and there is an error |
| ExtensionRpc.WaitingCallReturns | extensions/stdio.go:141-153 | once done, a waiting call returns, with its reply exactly if one was offered |
| ExtensionRpc.ReplyReachesItsCall | extensions/stdio.go:141-202 | while the reader reads, a waiting call returns with the reply that then comes with its id, or with an earlier one not taken yet, and no other call is touched |
| ExtensionRpc.EndsOnce | extensions/stdio.go:222-230 | the done channel is closed at most once and the first error stays |
| SandboxPaths.PathWithinAny | tools/sandbox_bubblewrap.go:290-298 | finds whether some root contains the path |
| SandboxPaths.WithinIff | tools/sandbox_bubblewrap.go:290-298 | a path lies within a root if it is the root or goes on behind it with a slash, and everything within `/` |
| SandboxPaths.CleanAbsolutePaths | tools/sandbox_bubblewrap.go:247-274 | the first faulty path decides the error; otherwise the cleaned paths, sorted, each once |
| SandboxPaths.FaultIff | tools/sandbox_bubblewrap.go:247-259 | a list is refused exactly if a given path has a NUL or is not rooted, and the first such path says why |
| SandboxPaths.CleanedMeans | tools/sandbox_bubblewrap.go:260-273 | the listing holds the cleaned form of every given path and nothing else |
| SandboxPaths.BeforeIff | tools/sandbox_bubblewrap.go:265-273 | the number of slashes decides the order, and then the first difference of the texts |
| SandboxPaths.CleanedPutsAncestorsFirst | tools/sandbox_bubblewrap.go:265-273 | no path twice, and every ancestor before its descendants |
| SandboxPaths.SortedIsUnique | tools/sandbox_bubblewrap.go:260-273 | the order is total, so the list is determined by its elements, whatever order the map was visited in |
| SandboxPaths.UniqueOrderedPaths | tools/sandbox_bubblewrap.go:276-288 | keeps the first of each cleaned path |
| SandboxPaths.FirstOfEachKeeps | tools/sandbox_bubblewrap.go:276-288 | every path stays, once |
| SandboxPaths.FirstOfEachInOrder | tools/sandbox_bubblewrap.go:276-288 | paths stay in the order of their first occurrences |
| Bubblewrap.CollectWriteFolders | tools/sandbox_bubblewrap.go:65-74 | all additional folders, or a refusal if one does not resolve or is the root |
| Bubblewrap.AppendSystemPath | tools/sandbox_bubblewrap.go:204-232 | a missing system path is skipped, a plain one bound read-only to itself, a link into the system paths kept as the link it is, and any other link's place bound read-only to what it resolves to |
| Bubblewrap.AppendReadPath | tools/sandbox_bubblewrap.go:162-189 | a read path that is not visible yet is bound read-only to what it resolves to, at its own place, or at the place of what it resolves to if only that is hidden; a root, a path that does not resolve or one that is not there is refused |
| Bubblewrap.BubblewrapArgs | tools/sandbox_bubblewrap.go:44-202 | the whole mount program in its order, the root made read-only last, or a refusal |
| Bubblewrap.WritableExactlyUnderWriteRoots | tools/sandbox_bubblewrap.go:192-199 | a path is host-writable exactly under a write root, and is then the same path there |
| Bubblewrap.HostPathWritableIff | tools/sandbox_bubblewrap.go:192-199 | some sandbox path writes to a host path exactly if that is under a write root |
| SandboxView.HostPathReadableIff | tools/sandbox_bubblewrap.go:162-232 | some sandbox path shows a host path exactly if that is under a write root, or under the source of a system or read mount that is not covered there |
| SandboxView.LayoutMountsAre | tools/sandbox_bubblewrap.go:162-232 | a system mount shows a system path itself, what it resolves to, or the link it is, and a read mount what a read path resolves to, never the root |
| SandboxView.ReadableIsNamed | tools/sandbox_bubblewrap.go:162-232 | whatever can only be read lies in a folder that the configuration names, as a system path or by what a path resolves to |
| SandboxView.RealPathShowsItself | tools/sandbox_bubblewrap.go:162-190 | a path without links on its way that is shown shows that very host path |
| SandboxView.ReadPathsAre | tools/sandbox_bubblewrap.go:150-161 | the read paths are what the configuration asks to read, cleaned |
| SandboxView.AcceptedIff | tools/sandbox_bubblewrap.go:44-202 | which configurations are accepted, told from configuration and host |
| Bubblewrap.WriteRootsMean | tools/sandbox_bubblewrap.go:61-75 | under a write root means under the shared workspace or an additional folder |
| Bubblewrap.TemporaryIsFresh | tools/sandbox_bubblewrap.go:124-144 | temporary directories are the sandbox's own unless a read or write path shows them |
| Bubblewrap.OwnMountsAreFresh | tools/sandbox_bubblewrap.go:119-144 | the host's processes, devices and temporary directories, and a private workspace's content, are not seen unless a write root or a read path shows the place |
| Bubblewrap.ReadPathShownIff | tools/sandbox_bubblewrap.go:162-190 | a read path shows host content exactly unless it lies under an own mount point and under neither a write root nor the place of a read mount, all told from configuration and host; a hidden one lies in a system path |
| Bubblewrap.CanonicalReadPathHiddenIff | tools/sandbox_bubblewrap.go:162-190 | among read paths that resolve to themselves, one is hidden exactly if it lies under an own mount point and a system path, and under neither a write root nor a read path that is outside both |
| Bubblewrap.ReadPathsOutsideAreShown | tools/sandbox_bubblewrap.go:162-190 | a read path under no own mount point is always shown |
| Bubblewrap.NestedReadIsHidden | tools/sandbox_bubblewrap.go:177-181 | a command in a temporary directory inside a system path is accepted and not there |
| Truncation.TruncateUTF8 | mcpclient/errors.go:88-101 | within the limit and valid; with room for the marker it keeps exactly the longest valid prefix that fits, for any bytes |
| Truncation.LongestValid | mcpclient/errors.go:96-99 | a valid prefix within the room such that no longer one is valid |
| Truncation.ValidIff | mcpclient/errors.go:96-99 | bytes are valid exactly if they are the encodings of some code points (section 3 of RFC 3629) |
| Truncation.StartsWithCharacterIff | mcpclient/errors.go:96-99 | bytes start with a whole character exactly if they start with the encoding of a code point |
| Truncation.Truncate | extensions/runtime_helpers.go:36-49 | within the limit; cuts at the last character start that fits |
| Truncation.SuffixSpells | extensions/runtime_helpers.go:40-40 | the suffix is the line `[output truncated]` |
| Truncation.ValidCutIff | extensions/runtime_helpers.go:45-47 | in valid bytes a cut is valid exactly at the end or at a character start |
| Truncation.CutsAgree | extensions/runtime_helpers.go:45-48 | on valid bytes both truncators cut at the same place |
| Truncation.TruncateKeepsValid | extensions/runtime_helpers.go:36-49 | valid input stays valid |
| Truncation.TruncateLosesAtMostThree | extensions/runtime_helpers.go:36-49 | valid input loses at most three bytes to the boundary |
| Truncation.TruncateUTF8LosesAtMostThree | mcpclient/errors.go:88-101 | the same for the other truncator |

## Left out

- HTTP, WebSocket, PTY, SQLite, git and subprocess calls are nondeterministic successes or failures; JSON, TOML, regexp and URL parsing, the HTML and JavaScript rewriting driven by regular expressions, the restoration of Vite module ids, the web UI and the terminal UI are not modelled.
- Status strings, timestamps, subscriber delivery and its drops, and persistence of thread metadata.
- Real time: timeouts are the steps in which a wait or call gives up.
- ConversationRuntime.ThreadRuntime.Prompt: whether images can be read and stored is an input; capability refresh and the prompt's lookup of the runtime are outside the critical section that is modelled.
- AgentLoop.Loop.RunWithImages: after-model hooks only fail or pass; that they may also change the calls, the text and the usage of a step is left out, and hooks around tools keep the call id; one run uses the session at a time.
- CodexSession.Session.Step: what the provider sends on the wire, usage decoding and the reduced input form are left out; a model item of kind `function_call_output` counts as a model item.
- Usage.Accumulate: counters are unbounded, so 64-bit wrap-around is not modelled.
- McpOwnership.ExactlyOnePlace: the operation mutex that serialises connects is not modelled, so more interleavings are covered than occur.
- McpClient.ServerRuntime.InstallTools: the session a listing came from is recorded for the proofs only; the source keeps just the generation.
- Redaction.MarksComeBack: the order in which Go visits a map, and so the order of the marks, is any enumeration.
- ConfigStore.HistoryIsLinear: writes are atomic; an error after the rename counts as the write it was. Checks on single servers, sources and other sections are a parameter, and nil and empty maps are identified.
- ConfigMerge.EffectiveSettings: sections made of independent fields are merged by field name, and deep copies are identities.
- SubagentTools.EffectiveSubagentTools: all threads are read from one snapshot and every stored one can be read; the source reads them one by one.
- TeamForest.ReachableForest: a spawn is one step; the source looks up the parent before it takes the team lock. The team-wide limit on running members is checked at spawn time only, so it is no invariant.
- TeamForest.IsAncestor: on parent cycles of two or more members, which no operation makes, the source's walk would not end; the method asks for a forest.
- TeamStore.Store.SpawnAgent: the checks on the request's own texts (name, task, role, thinking level) are left out; whether the first prompt succeeds is an input.
- TeamStore.NarrowAgentTools: the parent's tools arrive sorted and without team tools.
- TeamSignals.NoWaiterMissesItsWakeup: which agents a wait selects is left open; any set of team members that it found running is covered.
- ProxyCookie.RewriteProjectCookie: lower-casing is modelled as far as ASCII letters can result, by characters and not by bytes.
- ProxyRewrite.RewriteQuotedRootPaths: texts are sequences of characters; all characters that the code looks at are ASCII.
- ClientTransport.RepliesReachTheirCalls: the decoded reply is opaque, and a send and the lookup before it are separate steps only in the reader.
- McpShutdown.LateRefreshChangesNothing: status texts, which a failing refresh may still change, are not modelled.
- ClientTransport.Transport.Deliver: the lookup and the send are one call of the class; the interleavings between them are those of the model's two steps.
- ExtensionRpc.CallTakesItsFirstReply: the size limit and encoding of requests are left out; a write error ends the connection in a step of its own.
- Bubblewrap.BubblewrapArgs: namespace flags, the arguments of the command and the reasons of refusals are left out; nil lists have been replaced by their defaults, and path cleaning and symlink resolution are parameters.
- ExtensionRpc.Connection.Register: drawing an id and registering it are one step.
- Bubblewrap.OwnMountsAreFresh: asks that no temporary directory is the empty text, which path cleaning never gives.
- Bubblewrap.WritableExactlyUnderWriteRoots: a symlink mounted into the sandbox is a view of its own and is not followed.
- SandboxView.HostPathReadableIff: asks that path cleaning and symlink resolution give canonical paths.
- ConfigMeaning.ValidMeans: the checks on single servers, sources and other sections are the same parameter on both sides.
- AgentLoop.Loop.Stream: the deltas of the update events and the text of the reasoning end are not part of the events.
