# BurnScope protocols in Dafny

BurnScope shows the rate-limit usage of coding agents on small ESP32 displays. A collector on
the laptop reads the usage, posts it to every paired display and checks later that the display
still holds it. This project models the parts of that system that keep state or carry a protocol,
and proves what they promise.

**The wire codec** (`JsonText`, `CursorSpec`, `Cursors`, `SkipTheorems`, `DropLoop`,
`ParseTheorems`, `WireFormat`, `WireMeaning`, `WireLegal`, `WireExact`, `HealthText`, `HealthWriter`,
`HealthSize`, `ExtraSessions`). `Cursors` is the device's JSON cursor: a class over a byte buffer
whose methods move `p` and set `err`. Each method is proved equal to a function on the remaining
text in `CursorSpec`. `JsonText` holds concrete JSON trees, with all their white space, escapes and
number spellings (RFC 8259, sections 2 and 4 to 7), and a printer. The theorems join the two: print
any tree, run the cursor, and it stops exactly where it should with what the tree means.
`WireMeaning` says that meaning again without an order of reading and with every bound as a number;
`WireLegal` and `WireExact` speak of any bytes. `HealthWriter` is the bounded writer of `/health` with
its roll-back.

**The snapshot store and the whole trip** (`SnapshotStore`, `Divergence`, `EndToEnd`). The two slots, their
monotonic guard, and the path from a posted text through parser, store and `/health` to the daemon's
comparison.

**The burn-in display controller** (`BurnIdle`, `Ramp`, `Fade`, `FadeSteps`, `FadeRegister`,
`FadeTimer`, `FadeWake`, `FadeWitnesses`, `Panel`).
`Fade` splits the brightness ramp into the stages between which the other task may run; its class runs
the stages of a call in a row. `FadeSteps` interleaves them in every way; three more modules say when
the brightness register, the fade timer and a wake keep their promise, and `FadeWitnesses` gives two
runs in which they do not. `Panel` takes events and timer ticks whole and shows that the glass follows
the idle state machine of `BurnIdle`.

**Pairing, pushing and reconciling** (`Tofu`, `HostCache`, `Cooldown`, `Fanout`, `FanoutCycle`,
`FanoutProgram`, `Dedupe`, `CodexDaemon`, `DaemonRuns`, `HealthLoop`). The device's trust-on-first-use slots, the
laptop's files under their lock, the shared browse cooldown, the fan-out among other processes, the dedupe gate
and the daemon's queue and counters.

**The provisioning form** (`FormField`). The decoder of one field against the serialiser of sections
5.1 and 5.2 of the WHATWG URL Standard.

`dafny verify dfyconfig.toml` checks everything.

## Conventions

- Bytes are `char`s. Every theorem about text holds for all of them unless it says otherwise.
- A number is the exact decimal m * 10^e in a canonical form (`Decimals`).
- Time is an integer in the unit of the code at hand; C's division truncates (`Decimals.TruncDiv`).
- A `class` has the fields of the source's record and a function `View` that gives their value. Its methods
  are proved against functions on that value, and the theorems are about those functions.
- Interleavings are runs: lists of steps, each one critical section, one call of the hardware, one
  network exchange or one flash access. Fields of a `State` that only observe are named in its comment.
- Replies, browse results, clock readings and free memory are parameters.

## Where the code and its comments differ

- `http_server.c:812-814` sizes the `/health` buffer for two agents. With client ids that need escaping the
  second one can be dropped (`HealthSize.EscapesCanDrop`); without, never (`HealthSize.NothingDropped`).
- `http_server.c:440-456` drops sessions beyond the third by counting braces without regard to strings, so a
  bracket inside a string misleads it (`ExtraSessions.FourthSessionMisread`);
  `ParseTheorems.SessionsReadExactly` and `ExtraSessions.ListReadExactly` say exactly when.
- `burn_idle_adapter.c:218-220` calls a lost brightness race benign because the next tick overwrites it. After a
  zero-duration fade there is no next tick (`FadeWitnesses.LateWriteStays`); `FadeRegister.RegisterHoldsExactly` says when
  it is benign.
- `burn_idle_adapter.c:531-533` says that the fade timer runs only while a ramp is in flight.
  `FadeWitnesses.TimerOutlivesFade` is a run where it does not stop, `FadeTimer.TimerHoldsExactly` says when it does.
- `burn_idle_adapter.c:222-226` accepts a narrow window between the last re-check and the power-off. A wake also
  switches the panel on before it bumps the generation, so any pending sleep fade can finish in between;
  `FadeWake.WakeStaysLit` gives the exact condition.
- `host_cache.py:57` anchors its allowlist with `$`, which also matches in front of a final line feed;
  `HostCache.SafeId` follows the code.

## Model

| member | source | states |
|---|---|---|
| Cursors.Cursor.SkipWs | firmware/main/http_server.c:63-66 | moves past exactly the leading white space and never past the buffer |
| Cursors.Cursor.ReadString | firmware/main/http_server.c:85-114 | reads the string the suffix reader reads, stores it with its terminator inside the buffer, fails with `err` set when it does not fit or has an unknown escape |
| Cursors.Cursor.ReadNumber | firmware/main/http_server.c:117-128 | takes the longest number at the cursor and its exact value, or fails with `err` set |
| Cursors.Cursor.PeekKey | firmware/main/http_server.c:132-144 | reads a key and its colon; without a quote `err` stays as it was; after a string that cannot be read the cursor is back on its quote; without a colon it stands on what is in its place |
| Cursors.Cursor.SkipStringBody | firmware/main/http_server.c:151-163 | stops just behind the closing quote, honouring escapes |
| Cursors.Cursor.SkipValue | firmware/main/http_server.c:165-207 | steps over what the suffix reader steps over; success leaves `err` as it was |
| Cursors.Cursor.ParseSession | firmware/main/http_server.c:333-410 | result and resting place of the session parser |
| Cursors.Cursor.DropSessions | firmware/main/http_server.c:440-456 | the loop that drops sessions beyond the third, with its brace counter |
| Cursors.Cursor.ParseSnapshot | firmware/main/http_server.c:412-484 | result and resting place of the snapshot parser; on success `err` is as it was |
| SkipTheorems.ReadStringReads | firmware/main/http_server.c:85-114 | on the text of any JSON string: its decoded bytes, or failure exactly when an escape is unknown or the bytes do not fit; stops behind the quote |
| SkipTheorems.PeekKeyReads | firmware/main/http_server.c:132-144 | the same for a key followed by its colon, with white space in between |
| SkipTheorems.SkipStringBodyReads | firmware/main/http_server.c:151-163 | crosses the body of any JSON string and stops behind its closing quote |
| SkipTheorems.ReadNumberReads | firmware/main/http_server.c:117-128 | reads every RFC 8259 number followed by a delimiter, with its exact value |
| SkipTheorems.SkipNestedReads | firmware/main/http_server.c:174-191 | a whole value of any depth leaves the counter of one bracket kind as it was |
| SkipTheorems.SkipValueReads | firmware/main/http_server.c:151-207 | for every JSON value, leading white space and following text: `skip_value` advances exactly past that value |
| Decimals.FractionCompared | firmware/main/http_server.c:363 | for every fraction m / 10^k: below zero exactly when m is, above n exactly when m > n * 10^k |
| Decimals.FractionCut | firmware/main/http_server.c:369 | the cast of every fraction m / 10^k is its whole part, cut off toward zero |
| CursorSpec.MinutesAre | firmware/main/http_server.c:382-391 | for every fraction m / 10^k: 0 below zero, 2147483647 above it, else the whole part |
| ParseTheorems.SessionReadsAlone | firmware/main/http_server.c:333-410 | on any JSON value `parse_session` answers the meaning of the tree: keys in any order, unknown keys ignored, last one wins, required ones enforced |
| ParseTheorems.ParseSnapshotReads | firmware/main/http_server.c:412-484 | on every JSON text whose session lists can be dropped after their third element, as `SessionsReadExactly` says, `parse_snapshot` accepts exactly the trees that stand for a snapshot, returns it and stops behind the tree |
| WireMeaning.SessionMeaningIs | firmware/main/http_server.c:333-410 | the same for a session: which values fit which name, bounds and lengths as numbers, defaults of the optional names, the last value of each name |
| WireMeaning.SnapshotMeaningIs | firmware/main/http_server.c:412-484 | the meaning of a snapshot tree without an order of reading: every member fits its name, the three required names occur, the last value of each name counts, and the first three elements are the sessions; exactly then it is accepted |
| WireLegal.AcceptedIsLegal | firmware/main/http_server.c:333-484 | whatever bytes arrive: an accepted snapshot has a known agent and 1 to 3 sessions, each with a type of 1 to 15 bytes without control bytes, a usage from 0 to 1 and minutes of 31 bits |
| WireExact.ReadStringExactly | firmware/main/http_server.c:85-114 | on any bytes: a string is read exactly from white space and a quoted body whose escapes are known and whose bytes fit |
| WireExact.SessionTurnExactly | firmware/main/http_server.c:339-404 | on any bytes, one turn of the member loop: either the brace that ends the object, or a key, a colon, a value its field takes and a comma or that brace; nothing else is accepted |
| WireExact.TopTurnExactly | firmware/main/http_server.c:418-479 | the same for the members of a snapshot |
| ParseTheorems.SessionsReadExactly | firmware/main/http_server.c:437-466 | for every list of JSON values of any length: the session loop answers the meaning of the list and stops behind it exactly when the walk over the elements after the third comes back to depth 0 |
| DropLoop.ElementsDropExactly | firmware/main/http_server.c:440-456 | dropping ends at the list's own bracket exactly when the walk over the elements, which counts every brace and a `]` at depth 0, also inside strings, comes back to depth 0 |
| DropLoop.WalkPut | firmware/main/http_server.c:444-453 | the walk over a printed value is a walk over its tree: only strings, objects and closing brackets matter |
| DropLoop.PlainObjectsDrop | firmware/main/http_server.c:440-456 | objects whose strings hold no brace and no closing bracket are always dropped as they should be |
| WireFormat.SnapshotRoundTrip | firmware/main/http_server.c:333-484 | every text that carries a snapshot of 1 to 3 sessions, whatever the key order, white space and unknown keys, parses to exactly that snapshot |
| ExtraSessions.ListReadExactly | firmware/main/http_server.c:435-466 | for every printed list of sessions, however long: the first three are kept and the cursor stops behind the list exactly when the brackets in the types of the others balance in that count |
| ExtraSessions.LongSnapshotRead | firmware/main/http_server.c:412-484 | every posted snapshot whose dropped types balance is read as its first three sessions |
| ExtraSessions.FourthSessionMisread | firmware/main/http_server.c:440-456 | a complete session of type `}` in fourth place: the list is not read as its first three, although without it it is |
| HealthWriter.AgentsWriter.JsonEscapeAppend | firmware/main/http_server.c:610-639 | appends the escaped bytes, or reports exactly the texts that do not fit; never writes outside the buffer |
| HealthWriter.AgentsWriter.AppendAgent | firmware/main/http_server.c:658-723 | all or nothing: the whole separated entry is appended, or the text and the comma state are as before; kept exactly when it fits below the capacity |
| HealthWriter.Health | firmware/main/http_server.c:831-862 | the body is the header, the kept entries and `}}`; it is sent exactly when header and closing fit |
| HealthText.EscapeRoundTrip | firmware/main/http_server.c:610-639 | decoding an escaped string gives it back exactly when it has no control byte other than newline, tab and carriage return |
| HealthText.EscapedReads | firmware/main/http_server.c:85-114 | `read_string` reads an escaped string back when it fits the destination |
| HealthText.EscapedSkips | firmware/main/http_server.c:151-163 | `skip_string_body` crosses the escaped form of any string |
| Decimals.SixDigitsIs | firmware/main/http_server.c:698-701 | the printed usage: itself up to six digits, else the nearest six-digit multiple, and of two equally near ones the even one |
| HealthText.HealthBodyIsTree | firmware/main/http_server.c:658-723 | the printed header and comma-joined entries are the text of a JSON tree |
| HealthWriter.HealthWellFormed | firmware/main/http_server.c:658-868 | for every list of snapshots and every capacity the kept entries are an order-preserving sublist and the closed body is well-formed JSON |
| EndToEnd.HealthReads | firmware/main/http_server.c:658-868 | a full JSON reader gets from the document the four header fields and, for exactly the agents of the entries, client id, age and sessions with their usage as printed |
| HealthSize.EntryLengthIs | firmware/main/http_server.c:646-657 | the exact length of an entry |
| HealthSize.NothingDropped | firmware/main/http_server.c:812-820 | at 2048 bytes neither of two agents is dropped when the client ids need no escaping |
| HealthSize.BothKept | firmware/main/http_server.c:658-723 | two agents are both kept exactly when both entries and the comma fit below the capacity |
| HealthSize.EscapesCanDrop | firmware/main/http_server.c:812-820 | behind the header of any device, two agents that the device can hold and whose client ids are quotes do not both fit, whatever their age |
| SnapshotStore.Store.Put | firmware/main/snapshot.c:53-109 | the slots and the result after a put |
| SnapshotStore.Store.Get | firmware/main/snapshot.c:111-128 | finds the agent's snapshot exactly when it is stored |
| SnapshotStore.Store.ForEach | firmware/main/snapshot.c:141-158 | visits the occupied slots in order |
| SnapshotStore.PutMeaning | firmware/main/snapshot.c:53-109 | a put stores the snapshot or changes nothing, touches no other agent, is STALE exactly when older than the stored one and NO_SLOT exactly without an agent name or a free slot; an accepted one is stamped with its own time and no other stamp moves; occupied slots stay distinct agents forming a prefix |
| SnapshotStore.OccupiedAreStored | firmware/main/snapshot.c:141-158 | what is visited is exactly what is stored, each agent once |
| SnapshotStore.CapturedNeverDecreases | firmware/main/snapshot.c:78-88 | along every run `captured_at` of an agent never decreases and the agent stays stored |
| SnapshotStore.RunIsFreshest | firmware/main/snapshot.c:78-90 | after any run of puts for at most two agents each slot holds a put with the greatest `captured_at` of its agent |
| SnapshotStore.OrderDoesNotMatter | firmware/main/snapshot.c:78-90 | with distinct capture times every arrival order ends with the same snapshots |
| EndToEnd.PyEscaped | firmware/main/http_server.c:610-639 | a JSON reader that knows all escapes gets every string back from its escaped form |
| EndToEnd.VerdictIsExact | client/src/burnscope_client/codex_daemon.py:1062-1091 | `_firmware_diverged` is false exactly when the document holds the agent with exactly the expected session list, as it is printed with six significant digits |
| Divergence.InStepExactly | client/src/burnscope_client/codex_daemon.py:1062-1091 | for any document: no divergence exactly when its `agents` holds the agent with exactly the expected sessions |
| EndToEnd.WireTreeCarries | client/src/burnscope_client/schema.py:67-73 | the printed form of a snapshot is one of the texts that carry it |
| EndToEnd.PushThenHealth | client/src/burnscope_client/codex_daemon.py:1062-1091 | a snapshot posted in any textual form, accepted, stored and reported: the daemon expecting y sees a divergence exactly when y's sessions are not the posted ones as printed, which for at most six significant digits is as posted |
| Ramp.RampAdvances | firmware/main/displays/amoled_sh8601/burn_idle_adapter.c:182-195 | a tick before the duration is up puts the brightness at start plus the elapsed share of the distance, cut off toward start (a cross-multiplied bound); later ticks never turn back, no clamp is needed, and from the duration on it is the target |
| Fade.FadeEngine.PassOne | firmware/main/displays/amoled_sh8601/burn_idle_adapter.c:168-179 | the snapshot taken under the lock, or nothing when no fade is active |
| Fade.FadeEngine.PassTwo | firmware/main/displays/amoled_sh8601/burn_idle_adapter.c:203-216 | commits value and completion only for the current generation |
| Fade.FadeEngine.FadeStep | firmware/main/displays/amoled_sh8601/burn_idle_adapter.c:153-236 | a whole tick of the fade timer, its stages one after the other |
| Fade.FadeEngine.EnterFade | firmware/main/displays/amoled_sh8601/burn_idle_adapter.c:244-277 | the critical section of a new fade: short circuit or new ramp from the current value |
| Fade.FadeEngine.BeginFade | firmware/main/displays/amoled_sh8601/burn_idle_adapter.c:238-298 | a whole start with its timer, brightness and power calls |
| Fade.TickOutcome | firmware/main/displays/amoled_sh8601/burn_idle_adapter.c:153-236 | what an uninterrupted tick leaves: nothing when idle, the ramp's value, and at the end the stopped timer and the pending power-off |
| Fade.StartOutcome | firmware/main/displays/amoled_sh8601/burn_idle_adapter.c:238-298 | what an uninterrupted start leaves in both cases |
| FadeSteps.EveryInterleaving | firmware/main/displays/amoled_sh8601/burn_idle_adapter.c:153-298 | in every interleaving: the generation counts the starts modulo 2^32, a stale callback commits nothing, a pending power-off belongs to an active fade to 0, an active fade has its timer running or about to be, and when the re-check passes brightness is 0 and no fade is active |
| FadeSteps.CommitsAdvance | firmware/main/displays/amoled_sh8601/burn_idle_adapter.c:182-216 | within one generation a commit puts the brightness at the elapsed share of the way, moves it monotonically to the target, and reaches it with the first tick at or after the duration |
| FadeRegister.RegisterFollows | firmware/main/displays/amoled_sh8601/burn_idle_adapter.c:227-287 | with positive durations the register is `current_pct` except while a callback between commit and write holds that value |
| FadeRegister.RegisterHoldsExactly | firmware/main/displays/amoled_sh8601/burn_idle_adapter.c:218-287 | from any reachable state with the register in order: every interleaving of one more start comes to rest with the register at `current_pct` exactly when the start does not short-circuit to another brightness while a callback stands between its commit and its write |
| FadeWitnesses.LateWriteStays | firmware/main/displays/amoled_sh8601/burn_idle_adapter.c:218-230 | a run with a 5 ms sleep fade and no wake fade after which both tasks rest, the engine believes the active 70 and the panel stays at 20 |
| FadeTimer.TimerHoldsExactly | firmware/main/displays/amoled_sh8601/burn_idle_adapter.c:531-533 | from any reachable state with the timer in order: every interleaving of one more start within a given time leaves the timer running only for a ramp in flight exactly when the start does not begin a ramp of at most that time while none is in flight and a callback is due |
| FadeWitnesses.TimerOutlivesFade | firmware/main/displays/amoled_sh8601/burn_idle_adapter.c:531-533 | a run with 5 ms sleep and 1 ms wake fades, in which a callback that became due before its fade was cut short finishes the next one, after which the timer runs with no fade in flight |
| FadeWake.WakeStaysLit | firmware/main/displays/amoled_sh8601/burn_idle_adapter.c:305-313 | after a wake's DISPON the panel stays on through every interleaving until the next sleep exactly when no sleep fade was pending and no callback had one in hand at that moment |
| BurnIdle.BurnIdleMachine.constructor | firmware/main/burn_protection/burn_idle.c:73-82 | starts ACTIVE with the matching baseline output |
| BurnIdle.BurnIdleMachine.HandleEvent | firmware/main/burn_protection/burn_idle.c:84-127 | one step of the machine and the output it returns |
| BurnIdle.ActiveOnlyByInteraction | firmware/main/burn_protection/burn_idle.c:84-121 | over every run the last activity never goes back and ACTIVE is re-entered only by motion, touch or button |
| BurnIdle.ActiveExactly | firmware/main/burn_protection/burn_idle.c:84-121 | ACTIVE and the last activity read off the history alone |
| BurnIdle.PhaseAfterTick | firmware/main/burn_protection/burn_idle.c:20-29 | after a time event: OFF exactly from offAfter since the origin on, DIMMED exactly from dimAfter to offAfter, ACTIVE exactly before dimAfter |
| BurnIdle.OutputAfter | firmware/main/burn_protection/burn_idle.c:84-127 | phase, brightness and power after any event that follows any run, read off the history |
| BurnIdle.PushNeverDarkens | firmware/main/burn_protection/burn_idle.c:90-110 | a push inserted anywhere never leaves the display darker at any later moment |
| BurnIdle.ReplayIsCurrent | firmware/main/burn_protection/burn_idle.c:123-126 | replaying only the changed outputs gives the current one, and an output is flagged exactly when the state changed |
| Panel.Adapter.ApplyOutput | firmware/main/displays/amoled_sh8601/burn_idle_adapter.c:300-336 | what an output does to the panel in its three directions |
| Panel.Adapter.Drain | firmware/main/displays/amoled_sh8601/burn_idle_adapter.c:338-355 | one turn of the drain task |
| Panel.Adapter.FadeTick | firmware/main/displays/amoled_sh8601/burn_idle_adapter.c:153-236 | one tick of the fade timer between turns |
| Panel.PanelRefinesMachine | firmware/main/displays/amoled_sh8601/burn_idle_adapter.c:238-355 | over every run and any durations: an active ramp leads to the machine's output from a lit panel, without one the panel shows exactly that output |
| Panel.FadeDirections | firmware/main/displays/amoled_sh8601/burn_idle_adapter.c:300-336 | the fade each change of what is shown begins in any run: from the current brightness to the new one, with the wake length for waking and brightening, the sleep length for sleeping and darkening, the panel lit first and switched off last; no change begins none |
| Panel.PanelConverges | firmware/main/displays/amoled_sh8601/burn_idle_adapter.c:238-355 | ticks that outlast the longer fade bring brightness, power and timer to what the machine wants |
| Panel.GlassAfterSilence | firmware/main/displays/amoled_sh8601/burn_idle_adapter.c:300-355 | after any run, one time event and enough ticks: dark from offAfter since the origin on, the dimmed brightness from dimAfter on, the active one before |
| Tofu.ClientIds.Load | firmware/main/nvs_store.c:142-181 | finds the stored id; an absent and an empty value are both no binding |
| Tofu.ClientIds.Save | firmware/main/nvs_store.c:183-222 | stores a valid id, refuses an invalid one |
| Tofu.ClientIds.Erase | firmware/main/nvs_store.c:224-246 | leaves no slot bound |
| Tofu.ClientIds.BindOrCheck | firmware/main/nvs_store.c:260-302 | one undisturbed bind: its result and the slots |
| Tofu.BindMeaning | firmware/main/nvs_store.c:260-302 | an undisturbed bind case by case: a free slot takes any id of 1 to 254 bytes, a taken one is never changed |
| Tofu.Linearizable | firmware/main/nvs_store.c:260-302 | every interleaving of binds under the mutex with unlocked erases is a sequence of slot operations that keeps results, effects and the order of calls; refused at once are exactly the calls without an agent or without an id of 1 to 254 bytes |
| Tofu.FirstUseWins | firmware/main/nvs_store.c:260-302 | between erases the first accepted id owns the slot: the same id is existing, any other a mismatch, so at most one bind is new |
| Tofu.NewExactly | firmware/main/nvs_store.c:260-302 | in every interleaving a bind is new exactly when nothing was accepted for its agent before or the slots were erased since |
| HostCache.AgentFiles.Add | client/src/burnscope_client/host_cache.py:219-236 | inserts or replaces one device |
| HostCache.AgentFiles.UpdateHost | client/src/burnscope_client/host_cache.py:239-270 | rewrites the host of a listed device, reports whether it is listed, never inserts |
| HostCache.AgentFiles.Remove | client/src/burnscope_client/host_cache.py:273-289 | drops the device and its outcome file |
| HostCache.AgentFiles.Claim | client/src/burnscope_client/host_cache.py:345-388 | grants exactly the safe requested ids whose cooldown is over and stamps them, whatever their order |
| HostCache.AgentFiles.BumpPushFailures | client/src/burnscope_client/host_cache.py:430-458 | counts one more failure |
| HostCache.AgentFiles.ComputeAggregateOk | client/src/burnscope_client/host_cache.py:503-542 | false exactly when some paired device is known to have failed, true exactly when all are known to be ok |
| HostCache.SafeIdIs | client/src/burnscope_client/host_cache.py:91-102 | the safe ids are the texts of letters, digits, point, underscore and hyphen with at most 64 bytes, one final line feed allowed |
| HostCache.LoadedIs | client/src/burnscope_client/host_cache.py:195-211 | a load keeps exactly the records with a safe id and a host |
| HostCache.AddFacts | client/src/burnscope_client/host_cache.py:219-236 | afterwards the list holds exactly the new record, at its end, and the old records of all other ids; ids stay unique and nothing else changes; an unsafe id changes nothing |
| HostCache.RemoveFacts | client/src/burnscope_client/host_cache.py:273-289 | afterwards the list holds exactly the records of all other ids, the outcome file of a listed id is gone and no other; ids stay unique |
| HostCache.UpdateFacts | client/src/burnscope_client/host_cache.py:239-270 | afterwards a listed id stands at the given host and every other record is as before; nothing is inserted, and presence is reported |
| Cooldown.GrantsApart | client/src/burnscope_client/host_cache.py:376-387 | successive grants to one device in lock order are at least the cooldown apart, whatever times the callers read before the lock |
| Cooldown.GrantedExactly | client/src/burnscope_client/host_cache.py:345-388 | in every run of claims a device is granted exactly when it is asked for, its id is safe and its last grant in lock order is at least the cooldown ago |
| Cooldown.BrowsesBounded | client/src/burnscope_client/host_cache.py:345-388 | in any half-open window of length W all callers together browse at most n times ceil(W/c) times for n devices |
| Cooldown.BoundIsMet | client/src/burnscope_client/host_cache.py:345-388 | the bound is reached by one device asked for at every moment |
| Fanout.PushToAll | client/src/burnscope_client/pusher.py:96-128 | the outcome of every device by its id |
| Fanout.ResultsAreTheAnswers | client/src/burnscope_client/pusher.py:96-128 | exactly the devices pushed to have an outcome: auth exactly for a 401, delivered exactly for a status below 300, a transport failure for any other status or none |
| Fanout.DuplicateHostGroups | client/src/burnscope_client/pusher.py:214-227 | the hosts two or more records share, with their ids in order |
| Fanout.AffectedShareAHost | client/src/burnscope_client/pusher.py:214-227 | an id is in a group exactly when one of its records shares its host with another record |
| FanoutProgram.RefreshAndRetry | client/src/burnscope_client/pusher.py:131-211 | the recovery of transport failures as a run of the step system; the results keep their keys |
| FanoutProgram.ReconcileDuplicateHosts | client/src/burnscope_client/pusher.py:230-291 | the reconciliation of shared hosts as a run of the step system |
| FanoutProgram.DoFanout | client/src/burnscope_client/claude_statusline.py:262-327 | the whole fan-out is a run of the step system on the given replies, browses and clock readings; undisturbed, it unpairs exactly the devices whose last reply was a 401 and that are not unverified; exit code 0 exactly when nothing else failed |
| FanoutProgram.EnterAll | client/src/burnscope_client/claude_statusline.py:287-327 | enters every outcome once, in any order |
| FanoutCycle.CycleAccounts | client/src/burnscope_client/claude_statusline.py:262-327 | a finished cycle of either collector among other processes: exactly the devices it set out to push to have a reply or a failure; ids unique; unverified exactly the ids that share a host in the list loaded last; unpaired exactly the devices whose last reply was a 401 and that are not unverified, as the list shows it; success exactly when every other last reply was below 300 and nothing is unverified |
| FanoutCycle.ClaimsExactly | client/src/burnscope_client/pusher.py:168-180 | a browse happens exactly when some device without a delivery or a 401, or with a shared host, has a safe id and its cooldown over, and serves exactly those |
| FanoutCycle.RetryExactly | client/src/burnscope_client/pusher.py:180-211 | a granted device is pushed to again exactly when the browse shows it at another host than it was pushed to and it is still paired, and then its record stands at that host |
| FanoutCycle.RefreshExactly | client/src/burnscope_client/pusher.py:230-291 | a device that shares its host is moved exactly when the browse shows it elsewhere and it is still paired |
| FanoutCycle.OutcomesOnFile | client/src/burnscope_client/claude_statusline.py:287-323 | of the outcome files: one that turns ok without another process writing that belongs to a device whose last reply was below 300 and that is not unverified; an untouched one says ok for every such device and never for an unverified or unreachable one |
| FanoutCycle.PairingsConserved | client/src/burnscope_client/claude_statusline.py:262-327 | at every point of every run an id appears only if it was there or another process added it, and disappears only if another process dropped it or the cycle unpaired it |
| CodexDaemon.Daemon.EnqueueBounded | client/src/burnscope_client/codex_daemon.py:345-364 | appends, dropping the oldest when full |
| CodexDaemon.QueueIsASuffix | client/src/burnscope_client/codex_daemon.py:337-364 | at every point of every run at most 8 entries, a suffix of the history; a put makes it one longer until it is full and then costs exactly the oldest; consumed in order, each at most once; the newest is never the one dropped |
| CodexDaemon.Daemon.Poll | client/src/burnscope_client/codex_daemon.py:502-527 | enqueues the anchored snapshot unless it equals the last pushed one |
| CodexDaemon.Daemon.EnterPushes | client/src/burnscope_client/codex_daemon.py:426-483 | files, both counters, evictions and the dedupe baseline after a fan-out, as a step of the runs in module DaemonRuns |
| CodexDaemon.Daemon.RecordHealthFailure | client/src/burnscope_client/codex_daemon.py:722-749 | a missed probe is the step of that name in the runs of module DaemonRuns |
| CodexDaemon.Daemon.MarkHealthOk | client/src/burnscope_client/codex_daemon.py:664-720 | an answered probe, with its document, is the step of that name; it reports a divergence exactly when the document differs from the delivered baseline |
| DaemonRuns.UnhealthyAfterFive | client/src/burnscope_client/codex_daemon.py:722-749 | at any point of any run of probes, 401s, fan-outs and other processes: a missed probe turns a device shown as ok into a failing one exactly when at least five misses have come since the last confirmed contact or eviction |
| DaemonRuns.HealthyAgain | client/src/burnscope_client/codex_daemon.py:664-720 | at any point of any run: a healthy probe turns a device not shown as ok into one that is exactly when a push was delivered before, the document matches the snapshot delivered last, and no push to this device is undelivered |
| DaemonRuns.ShownAtOnce | client/src/burnscope_client/codex_daemon.py:426-483 | at any point of any run: a fan-out leaves a device shown as ok exactly when it took the push and is not unverified, a condemned one is not, and neither touches another device |
| Dedupe.AnchorResetsAt | client/src/burnscope_client/codex_daemon.py:968-1011 | each session's reset time replaced by the last pushed one of its type when the usage is unchanged |
| Dedupe.SemanticallyEqualExactly | client/src/burnscope_client/schema.py:75-100 | the sorted comparison says that agent and sessions are the same, each as often, whatever the order of the tuples |
| Dedupe.GateIsExact | client/src/burnscope_client/codex_daemon.py:522-525 | for distinct types the gate closes exactly when agent and sessions agree apart from reset times |
| Dedupe.PolledIsAnchored | client/src/burnscope_client/codex_daemon.py:514-527 | what a poll enqueues is the latest snapshot with its usage and order, each reset time being the last pushed one of the same type and usage, else its own |
| Dedupe.AnchoringIsIdempotent | client/src/burnscope_client/codex_daemon.py:968-1011 | anchoring twice is anchoring once |
| Dedupe.DriftEnqueuesNothing | client/src/burnscope_client/codex_daemon.py:514-527 | any run of polls enqueues nothing exactly when all agree with the last pushed snapshot apart from reset times |
| Dedupe.DriftSwallowedExactly | client/src/burnscope_client/codex_daemon.py:991-1006 | for any session types: drift of reset times alone is always swallowed exactly when in the last pushed snapshot the sessions of one type agree on usage and reset time; distinct types do |
| HealthLoop.VerifyRebindHosts | client/src/burnscope_client/codex_daemon.py:836-907 | the check as the daemon runs it is a run of the steps below on the given time and browse, ending with the verified devices |
| HealthLoop.RebindsAreConfirmed | client/src/burnscope_client/codex_daemon.py:836-907 | among other processes: each verified device asked, was due and stands at the host the browse showed; the check inserts and drops no pairing; a device unpaired during the browse is not re-bound at another host than it asked for |
| HealthLoop.CheckExactly | client/src/burnscope_client/codex_daemon.py:880-905 | one check, among other processes: verified exactly when it earns it, its record moved exactly when the browse shows a paired device elsewhere |
| HealthLoop.VerifiedExactly | client/src/burnscope_client/codex_daemon.py:860-907 | when the check is over and nobody else paired or unpaired the device: it is verified at the host the browse showed exactly when it was granted and asked for that host or is paired |
| FormField.ExtractField | firmware/main/provisioning.c:141-174 | the specified field in the buffer with its terminator, never outside the two buffers |
| FormField.DecodeInto | firmware/main/provisioning.c:148-168 | decodes a value, or fails exactly when it is too long |
| FormField.FieldRoundTrip | firmware/main/provisioning.c:134-174 | for every list of pairs serialised as application/x-www-form-urlencoded and every buffer: the value of the first pair with the key when it fits, nothing exactly when there is none or it is too long |

## Left out

- ParseTheorems.ParseSnapshotReads: where a list cannot be dropped after its third session, `ParseTheorems.SessionsReadExactly` says that it is misread; what the rest of the parser then makes of the remaining text is not characterised.
- SkipTheorems.ReadNumberReads: `strtod` also takes hexadecimal, infinities and not-a-number, and rounds to binary; numbers here are RFC 8259 tokens with exact values.
- EndToEnd.PushThenHealth: percentages are not rounded to a 32-bit float; the entry must be among those that fit; times lie in the range of 64-bit integers.
- FadeSteps.EveryInterleaving: fades start one at a time and without display rotation, which is a second caller of `start_fade`; a callback in flight is not delayed past 2^32 starts.
- BurnIdle.BurnIdleMachine.HandleEvent: times are unbounded integers, so the overflow of 64-bit microseconds is not modelled.
- Panel.PanelConverges: the fine-grained races are in module FadeSteps; here events and ticks are whole.
- Tofu.Linearizable: flash accesses never fail and a mutex is always granted in the end.
- SnapshotStore.Store.Put: the listeners it calls are not modelled.
- Cooldown.BrowsesBounded: for a constant positive cooldown, with no reset of the cooldown file and no corrupt file.
- FanoutProgram.RefreshAndRetry: a device without a listed reply to its retry counts as unreachable; it runs without other processes, which module FanoutCycle adds.
- FanoutProgram.DoFanout: the paired list has unique ids at the start, which every operation on it keeps.
- FanoutCycle.CycleAccounts: the paired list has unique ids at the start; entering one outcome is one step, and the auto-pairing of a first run with an empty list is not modelled.
- CodexDaemon.Daemon.Poll: compares sessions as multisets, which `Dedupe.SemanticallyEqualExactly` shows to be the sorted comparison for every total order of tuples.
- HostCache.AgentFiles.Add: the JSON spelling of the state files and failures of the file system are not modelled; a file is a list of records, of which a load keeps the safe and complete ones.
- HTTP, mDNS, flock, flash and timer internals: their results and steps are inputs of the model.
- The LVGL screens, panel and touch drivers, icons, command line, supervisor files, logging and identity.
- The second panel's copy of the adapter (`amoled_co5300_175`), which has the same logic.
- The re-probe of failed devices in the health loop (`codex_daemon.py:751-834`), which repeats the claim, browse and update steps modelled in the fan-out.
- Captive DNS, WiFi retries, OTA streaming, orientation debounce, the button and motion debounce and countdown formatting: short loops or single branches.
