# globus-transfer, modelled in Dafny

The model covers the part of the `globus` command-line tool that makes a
Globus transfer happen. It also covers the older single-file tool
`globus.py`.

- **Transfer specifications.** Each `"src:dst"` string is classified as a
  file item, a recursive directory item, or a rejection. A spec where only
  one side ends in `/` is an invalid transfer specification. Any other
  malformed spec crashes.
- **Endpoint activation orchestrator.** For a list of endpoints it does
  three passes:
  - it finds the inactive ones;
  - it calls `endpoint_autoactivate` on each of those;
  - it activates the rest manually.

  Manual activation depends on the terminal. Interactively, it prompts
  until the endpoint is active or the operator presses ctrl-c.
  Non-interactively, it records an `ENDPOINT_ACTIVATION_REQUIRED_<idx>`
  attribute on the job the process runs as. The command exits if anything
  is still unresolved.
- **Task wait.** The retry loop has an attempt budget. Its exit code
  depends on whether any poll raised.
- **Hold resolution (`release`).** For each job it:
  - collects the endpoints that still await manual activation;
  - activates them;
  - resets one attribute per endpoint to `Undefined`;
  - releases the job.
- **Bookmarks.** Adding, renaming, removing and clearing bookmarks, and
  mapping a command-line argument through the bookmark table.
- **Formatting.** The colour of a `history` row and the tree layout of a
  `status` entry.
- **Legacy tool (`globus.py`).** Its per-endpoint short-circuit chain
  (active, else auto-activated, else manually activated) and its
  `transfer` command.

External systems are modelled as one value, `Service.World`. It holds:
- the transfer service's endpoints, each with its `"activated"` JSON
  value and the code autoactivation would return;
- whether a refresh token exists;
- `is_interactive()`;
- the operator's successive answers at confirmation prompts;
- the attributes of the process's own job.

Calls to the transfer service and the terminal with effects outside the
process are logged in order as `Event`s: autoactivation, a prompt, a
submission. Writes to HTCondor are state, not events. `set_job_attr`
(globus/cli.py:828-829 and 739-740) changes the job's attributes: the
process's own job is the `World`'s `ownJob`, and in `release` it is the
`JobAd` being handled. `schedd.act` (globus/cli.py:743) adds the job's
cluster id to the `released` sequence that `Release.Release` returns.
Bookmarks are the one table the source changes in place, so they are a
class, `Bookmarks.Settings`. An uncaught Python exception is the exit code
`Crash`. Examples are a `split(":")` that does not give two parts,
`""[-1]`, or a `KeyError`. `Outcome` means either the command goes on with
a value or it calls `sys.exit` with a code.

Some methods are proved equal to pure functions on the same inputs. They
are the activation passes
(`Activation.ActivateEndpointsAutomatically` equals `Activation.AutoPass`,
`Activation.AwaitActivation` equals `Activation.Await`,
`Activation.ActivateEndpointsManually` equals `Activation.ManualPass`,
`Activation.ActivateEndpointsOrExit` equals `Activation.ActivateOrExit`)
and the parsing of transfer specifications (`TransferSpecs.AddTransferItems`
equals `TransferSpecs.ParseAll`). The attribute reset of `release` is the
function `Release.Cleared`, and `Release.ClearPending` is proved equal to it.
The properties are lemmas about those functions. The wait loop
(`TaskWait.WaitForTaskOrExit`), the `status` row builder
(`StatusFormat.TreeRows`), the pending-activation scan
(`Release.PendingActivations`) and the `release` loop (`Release.Release`)
state their results directly in their postconditions.

Behaviour worth noting:
- **Attribute index.** `activate_endpoints_manually` names the attribute it
  writes after the endpoint's position in the list passed to it
  (`enumerate`, globus/cli.py:811 and 828). The name is not chosen to
  avoid existing attributes. A second run therefore overwrites
  `ENDPOINT_ACTIVATION_REQUIRED_0`, as `JobAttributes.RecordRequiredOthers`
  and `JobAttributes.RecordRequiredValues` state.
- **`release` and the terminal.** The `release` docstring
  (globus/cli.py:723) calls the command interactive, but it calls the same
  `activate_endpoints_manually` as every command (globus/cli.py:738), and
  that function checks `is_interactive()` (globus/cli.py:816).
  Non-interactively it records the endpoints again, on the process's own
  job, and `release` still resets the handled job's attributes and
  releases it (globus/cli.py:739-743).
- **`release` can stop early.** A missing refresh token
  (globus/cli.py:737 and 767-772), an unknown endpoint or ctrl-c at a
  prompt exits the command at the job being handled, and the jobs after it
  are not released (`Release.Release`).
- **Duplicate endpoints in `release`.** `release` inverts the attribute
  map with a dict comprehension (globus/cli.py:730-735). When two
  attributes name one endpoint, only one of them is reset
  (`Release.JobHandledDuplicate`, with the concrete case
  `Release.DuplicateStaysOpen`).

## Model

| member | source | states |
|---|---|---|
| Text.Split | globus/cli.py:592 | `str.split(sep)`: at least one part, and no part contains the separator |
| Text.SplitJoin | globus/cli.py:592 | joining the parts of a split with the separator gives back the string |
| Text.SplitWithout | globus/cli.py:592 | a string without the separator splits into itself alone |
| Text.SplitPair | globus/cli.py:592 | `a:b` with colon-free `a`, `b` splits into exactly `[a, b]` |
| Text.NatToString | globus/cli.py:828 | the f-string of an index is a non-empty string of decimal digits |
| Text.ParseNatToString | globus/cli.py:828 | reading back the printed index gives the index |
| Lists.Restrict | globus/cli.py:780-782 | a filtering comprehension is never longer than its input |
| Lists.RestrictMembers | globus/cli.py:780-782 | an element survives the filter if and only if it is in the list and satisfies the condition |
| Lists.RestrictAppend | globus/cli.py:798-806 | filtering a concatenation filters each part, keeping the input order |
| Lists.RestrictRestrict | globus/cli.py:780-784 | filtering twice is filtering once by both conditions |
| Lists.RestrictNone | globus/cli.py:798-806 | a filter no element passes gives the empty list |
| Service.AutoActivation | globus/cli.py:801-804 | an autoactivate call returns the endpoint's code, changes nothing but that endpoint's state, leaves the world alone on `AutoActivationFailed` and the endpoint active otherwise |
| Service.Acknowledge | globus/cli.py:817-822 | a confirmation prompt aborts exactly when no answer is left; otherwise it uses up one answer, changes only the prompted endpoint, and leaves it active exactly when the operator activated it or it already was |
| TransferSpecs.ParseSpec | globus/cli.py:592-604 | an accepted item has both paths ending in `/` or neither, and it is recursive exactly when they do |
| TransferSpecs.ParseSpecSound | globus/cli.py:592-604 | an accepted spec is exactly `source:destination` of its item, with non-empty colon-free paths |
| TransferSpecs.ParseSpecClassifies | globus/cli.py:593-604 | two slashes give a recursive item, no slash gives a file item, exactly one slash is the invalid-specification rejection |
| TransferSpecs.ParseAll | globus/cli.py:591-604 | when every spec is accepted there is one item per spec |
| TransferSpecs.ParseAllItems | globus/cli.py:591-604 | the list is accepted if and only if every spec is, and then item `i` is spec `i`'s item, in order |
| TransferSpecs.ParseAllFirstRejection | globus/cli.py:596-601 | a rejection names the first spec that fails, and every spec before it is accepted |
| TransferSpecs.ParseAllRejectionSticks | globus/cli.py:591-601 | once a prefix is rejected, later specs change nothing, because the loop exits there |
| TransferSpecs.AddTransferItems | globus/cli.py:591-604 | the loop builds exactly `ParseAll` of the specs |
| JobAttributes.RequiredKey | globus/cli.py:828 | `f"{ENDPOINT_ACTIVATION_REQUIRED}_{idx}"` starts with the prefix, followed by `_` and at least one more character |
| JobAttributes.RecordRequired | globus/cli.py:828-829 | recording the unresolved endpoints keeps every existing attribute name and adds only names that start with the prefix |
| JobAttributes.RequiredKeyRoundTrip | globus/cli.py:828 | `ENDPOINT_ACTIVATION_REQUIRED_<idx>` passes the prefix test of `release`, and the index reads back from it |
| JobAttributes.RequiredKeysDistinct | globus/cli.py:811-831 | different positions give different attribute names |
| JobAttributes.RecordRequiredValues | globus/cli.py:823-831 | after a non-interactive pass, attribute `RequiredKey(i)` holds the i-th unresolved endpoint, for every i |
| JobAttributes.RecordRequiredKeys | globus/cli.py:828-829 | recording adds exactly the attributes `RequiredKey(i)` and no others |
| JobAttributes.RecordRequiredOthers | globus/cli.py:828-829 | every other attribute keeps its value |
| Activation.InactiveEndpoints | globus/cli.py:780-782 | exits with the endpoint-info error exactly when an endpoint is unknown; otherwise gives exactly the inactive listed endpoints |
| Activation.AutoActivationProgress | globus/cli.py:801-804 | one autoactivate call changes only that endpoint, leaves it active unless the code is `AutoActivationFailed`, and returns the endpoint's code |
| Activation.AcknowledgeProgress | globus/cli.py:817-822 | one acknowledgement changes at most the prompted endpoint, and uses up one answer |
| Activation.AutoPass | globus/cli.py:798-806 | the automatic pass keeps the set of known endpoints |
| Activation.AutoPassProgress | globus/cli.py:798-806 | the automatic pass only activates listed endpoints and changes nothing else in the world |
| Activation.AutoPassUnresolved | globus/cli.py:798-806 | what it returns is exactly the listed endpoints whose code is `AutoActivationFailed`, in order |
| Activation.AutoPassCalls | globus/cli.py:798-806 | it makes one autoactivate call per listed endpoint, in list order |
| Activation.AutoPassActivates | globus/cli.py:798-806 | every listed endpoint whose code is not `AutoActivationFailed` ends active |
| Activation.ActivateEndpointsAutomatically | globus/cli.py:798-806 | the loop computes the automatic pass |
| Activation.Await | globus/cli.py:817-822 | the prompt loop keeps the set of known endpoints |
| Activation.AwaitProgress | globus/cli.py:817-822 | the prompt loop only ever activates the endpoint it waits for |
| Activation.AwaitOutcome | globus/cli.py:817-822 | it ends with the endpoint active or with ctrl-c (abort) once the answers run out; one prompt per answer used, plus the aborted one |
| Activation.AwaitActivation | globus/cli.py:817-822 | the `while` loop computes the prompt loop |
| Activation.ManualPass | globus/cli.py:809-833 | the manual pass keeps the set of known endpoints |
| Activation.ManualPassProgress | globus/cli.py:809-833 | it only activates listed endpoints; interactively it leaves the job attributes alone; all its calls are prompts about listed endpoints |
| Activation.ManualPassRecords | globus/cli.py:823-831 | non-interactively it succeeds if and only if every endpoint is known; it returns every endpoint as unresolved, prompts nothing, and records them all as job attributes |
| Activation.ManualPassInteractive | globus/cli.py:816-822 | interactively it exits only on an unknown endpoint or an abort, and on success leaves every endpoint active with nothing unresolved |
| Activation.ManualPassAlreadyActive | globus/cli.py:816-817 | interactively, endpoints that are already active cost no prompt and change nothing |
| Activation.ManualPassExitSticks | globus/cli.py:809-833 | an exit at some endpoint ends the pass: later endpoints change nothing |
| Activation.ActivateEndpointsManually | globus/cli.py:809-833 | the loop computes the manual pass |
| Activation.ActivateOrExit | globus/cli.py:779-795 | when it returns, it returns true |
| Activation.ActivateEndpointsOrExit | globus/cli.py:779-795 | the three passes compute `ActivateOrExit` |
| Activation.PendingKnown | globus/cli.py:780-783 | the inactive endpoints handed to the automatic pass are known |
| Activation.AfterAutoPass | globus/cli.py:780-784 | after the first two passes, what remains for the manual pass is exactly the inactive endpoints whose autoactivation failed |
| Activation.AfterAutoPassActive | globus/cli.py:780-784 | every listed endpoint not left for the manual pass is active after the automatic pass |
| Activation.NeedManualExactly | globus/cli.py:780-784 | the endpoints left for the manual pass are exactly the listed endpoints that are known, inactive and whose autoactivation failed, in list order |
| Activation.ActivateOrExitUnknown | globus/cli.py:780-782 | an unknown endpoint exits with the endpoint-info error before any call |
| Activation.ManualPassDoneActive | globus/cli.py:784-786 | a manual pass that leaves nothing unresolved leaves every listed endpoint active |
| Activation.ActivateOrExitActive | globus/cli.py:779-795 | on return every listed endpoint is known and active |
| Activation.ActivateOrExitFailures | globus/cli.py:779-789 | the possible exits are endpoint-info, activation, or (interactively) abort; the activation error happens if and only if the terminal is not interactive, all endpoints are known, and one still needs manual activation |
| Activation.ActivateOrExitEffects | globus/cli.py:779-795 | only listed endpoints are activated; interactively the job attributes stay; non-interactively exactly the endpoints needing manual activation are recorded |
| Activation.ActivateOrExitCalls | globus/cli.py:780-784 | one autoactivate call per inactive endpoint in order, then only prompts about endpoints needing manual activation |
| Activation.ActivateOrExitNothingManual | globus/cli.py:784-795 | when no endpoint needs manual activation, it returns and changes only endpoint states |
| Activation.ActivateOrExitAllActive | globus/cli.py:780-784 | all endpoints already active: no call and no change |
| TaskWait.Budget | globus/cli.py:837-855 | the loop polls at least once, and `max_attempts` times when that is positive |
| TaskWait.ExhaustedExit | globus/cli.py:855-861 | the exit code is WAIT_TASK_ERROR if and only if some poll raised, and WAIT_TASK_TIMEOUT otherwise |
| TaskWait.WaitForTaskOrExit | globus/cli.py:836-861 | it returns true on the first finished poll, and succeeds if and only if some poll within the budget finishes; otherwise it exits after exactly the budget, with the code depending on whether a poll raised |
| Bookmarks.MapEndpoint | globus/cli.py:316-323 | an argument that is a bookmark name maps to that bookmark's endpoint; any other argument maps to itself |
| Bookmarks.Renamed | globus/cli.py:253-254 | the new name holds the old name's endpoint, the old name is gone, and every other bookmark is unchanged |
| Bookmarks.RenamedResolves | globus/cli.py:253-254 | after a rename, the new name resolves as the old one did, the old name resolves to itself, and other arguments resolve as before |
| Bookmarks.RenameBack | globus/cli.py:253-254 | renaming to a fresh name and back restores the table |
| Bookmarks.AddResolves | globus/cli.py:240 | after adding, the name resolves to the endpoint and other arguments resolve as before |
| Bookmarks.RemoveResolves | globus/cli.py:268-269 | after removing, the name resolves to itself and other arguments resolve as before |
| Bookmarks.Settings.Add | globus/cli.py:240 | the table gains or overwrites that one entry |
| Bookmarks.Settings.Rename | globus/cli.py:253-256 | an unknown name exits with the default error code and leaves the table alone; otherwise the table is renamed |
| Bookmarks.Settings.Remove | globus/cli.py:268-271 | an unknown name exits with the default error code and leaves the table alone; otherwise exactly that entry is removed |
| Bookmarks.Settings.Clear | globus/cli.py:282-286 | declining the confirmation aborts with the table unchanged; confirming empties it |
| StatusFormat.HistoryStyle | globus/cli.py:368-371 | a colour for exactly ACTIVE, SUCCEEDED and FAILED; any other status raises |
| StatusFormat.HistoryStyleDistinct | globus/cli.py:369 | the three statuses get three different colours |
| StatusFormat.Present | globus/cli.py:710 | `filter(None, …)` keeps no empty line and never lengthens the list |
| StatusFormat.PresentMembers | globus/cli.py:710 | a line survives if and only if it was present and not empty |
| StatusFormat.TreeRows | globus/cli.py:710-716 | it raises on no line; otherwise gives the head, branch rows for the middle lines, the last line as a leaf, and a blank row; a lone line appears as both head and leaf |
| TransferCommand.SpecExit | globus/cli.py:596-601 | the mixed-directory rejection is the invalid-specification exit, and any other malformed spec crashes |
| TransferCommand.Transfer | globus/cli.py:580-620 | no login is the authorization error with no call; a bad spec exits before any activation; otherwise activation of `[source, destination]` after bookmark mapping, then one submission of the parsed items; with `--wait` it succeeds if and only if a poll finishes within the budget |
| TransferCommand.SubmitOnlyWhenActive | globus/cli.py:606-608 | a submission happens only with both endpoints active, and activation itself submits nothing |
| Release.Cleared | globus/cli.py:739-740 | resetting attributes keeps the attribute names |
| Release.PendingKeySentinel | globus/cli.py:733-734 | writing the `Undefined` sentinel to `ENDPOINT_ACTIVATION_REQUIRED_<idx>` closes that request, and writing an endpoint opens it |
| Release.ClearedResolves | globus/cli.py:730-740 | resetting the chosen key of each endpoint touches only open requests, and every requested endpoint has a request reset |
| Release.ClearedNothing | globus/cli.py:736-740 | with nothing to reset the attributes are unchanged |
| Release.ClearedAllWhenDistinct | globus/cli.py:730-740 | when no two open requests name one endpoint, no open request remains |
| Release.DuplicateStaysOpen | globus/cli.py:730-735 | two requests for one endpoint: one of them stays open after the reset |
| Release.ClearedDuplicateStaysOpen | globus/cli.py:730-740 | whatever key the comprehension keeps for an endpoint named by two open requests, that endpoint is still asked for after the reset |
| Release.RecordedArePending | globus/cli.py:730-735 | the requests a non-interactive pass records are exactly what `release` later finds open |
| Release.PendingActivations | globus/cli.py:730-735 | the comprehension maps every requested endpoint to one open request naming it, and lists each endpoint once |
| Release.ClearPending | globus/cli.py:739-740 | the loop resets exactly the chosen keys |
| Release.HandledJobFacts | globus/cli.py:728-740 | a job handled successfully has its attributes reset at one open request per requested endpoint, chosen as the comprehension does; it exits only for a job with requests, leaving the job alone, with the authorization error exactly when there is no login; interactively every requested endpoint ends active; non-interactively with login and known endpoints it succeeds; a job with no requests changes nothing |
| Release.HandledJobResets | globus/cli.py:728-740 | handling a job keeps its cluster id and changes only open requests; on success every requested endpoint has a request reset; on exit the job is unchanged |
| Release.ResolveJob | globus/cli.py:728-740 | one loop iteration: no requests means no change; a missing login exits; otherwise the manual pass, then the reset on success |
| Release.HandledPrefixResets | globus/cli.py:727-743 | across the whole run every job keeps its cluster id and only its open requests change, and every handled job has a request reset for each endpoint it asked for |
| Release.JobHandledResolves | globus/cli.py:730-740 | a handled job had only open requests reset, and one for every endpoint it asked for |
| Release.JobHandledDuplicate | globus/cli.py:730-740 | in a handled job where two open requests named one endpoint, that endpoint is still asked for afterwards |
| Release.Release | globus/cli.py:721-743 | jobs are released in order, one by one; the run finishes if and only if every job is released; each released job's attributes are reset at one open request per requested endpoint, chosen as the comprehension does; an exit happens at a job with requests and leaves that job and the later jobs alone; interactively all requested endpoints end active; non-interactively with a login and known endpoints it never exits; with no requests at all nothing changes |
| LegacyCli.EndpointActive | globus.py:201-202 | an unknown endpoint raises; otherwise active exactly when `"activated"` is the JSON `true` |
| LegacyCli.OnlyTrueIsActive | globus.py:202 | any other `"activated"` value, truthy or not, means inactive |
| LegacyCli.ActivateAutomatically | globus.py:205-208 | one autoactivate call; true if and only if the code is not `AutoActivationFailed`, and then the endpoint is active |
| LegacyCli.ActivateManually | globus.py:211-219 | exactly one prompt, no loop; true if and only if the endpoint was active or the operator activated it; ctrl-c aborts |
| LegacyCli.ActivateEndpointOrExit | globus.py:137-146 | on return the endpoint is known and active; an exit is a crash, an abort or ACTIVATION_ERROR; at most two calls are made |
| LegacyCli.ActiveShortCircuits | globus.py:138-139 | an active endpoint makes no autoactivate call and no prompt |
| LegacyCli.AutoShortCircuits | globus.py:138-141 | a successful autoactivation makes no prompt |
| LegacyCli.ActivationErrorIffAllFail | globus.py:137-146 | ACTIVATION_ERROR happens if and only if all three checks are false; ctrl-c aborts; an unknown endpoint crashes with no call |
| LegacyCli.ActivateEndpointOrExitEffects | globus.py:137-146 | on success the endpoint is active; the calls are at most autoactivate then prompt, and the prompt happens exactly when autoactivation failed |
| LegacyCli.ActivateEndpointOrExitKeeps | globus.py:137-146 | the chain touches only its endpoint, never deactivates one, and uses at most one answer |
| LegacyCli.Transfer | globus.py:84-111 | no token crashes; every spec is checked before any activation; the source is activated before the destination, and a source failure means the destination is never queried; on success both are active and the items are submitted last |
| LegacyCli.ActivationNeverSubmits | globus.py:106-109 | activating the two endpoints submits nothing, so the single submission comes last |

## Left out

- OAuth login, the refresh-token exchange and `get_client` (globus/cli.py:203-218, 766-776, 876-891; globus.py:36-46, 152-194). These are foreign SDK calls and file I/O. A refresh token is modelled only as `World.loggedIn`.
- `upgrade`, `enable_autocomplete`, `settings`, `endpoints`, `info`, `ls`, `manifest`, `activate`, `cancel`, `wait`, `history` output and the logging setup. These are output formatting or thin wrappers around SDK calls.
- Reading and writing the settings file. The bookmark table starts as the constructor's argument, and `save_settings` is not modelled.
- Bookmark `ls` table output, and the order in which rows are printed.
- Colours, logging and message text, including the URL built for manual activation.
- The `status` fields themselves: timestamps, `humanize`, `job.get` and the sorting by cluster id. Only the row layout of globus/cli.py:710-716 is modelled.
- The `--as-job` submit-description template, and the loop at globus/cli.py:791-793 that only logs activation expiry.
- `classad.quote`. A recorded endpoint is stored as its text.
- `globus/endpoints.py`, `globus/jobs.py`, `globus/constants.py` and `globus/utils.py` are not part of this model. Their behaviour is assumed as follows:
  - `EndpointInfo.get_or_exit` exits with the endpoint-info error for an unknown endpoint;
  - `EndpointInfo.is_active` is the same test as globus.py:202;
  - `is_interactive` is a flag of the world;
  - the attribute prefix is the string `ENDPOINT_ACTIVATION_REQUIRED`;
  - the exit codes are distinct variants with no numeric values.
- The `Undefined` sentinel. `job.get` and `set_job_attr` live in globus/utils.py, which is not part of this model. Writing the string `"Undefined"` through `set_job_attr(k, "Undefined", scratch_ad=job)` (globus/cli.py:740) is assumed to store the value that the test `v is not classad.Value.Undefined` (globus/cli.py:734) rejects. The model writes `AttrValue.Undefined`, and `Release.PendingKeySentinel` states the consequence.
- SDK calls that fail. `get_endpoint`, `endpoint_autoactivate` and `submit_transfer` are assumed never to raise. The only modelled failures are the `KeyError` of a missing endpoint in globus.py and the exits of `EndpointInfo.get_or_exit`. A network error or a `TransferAPIError` is not modelled.
- Service behaviour is assumed: an autoactivation that does not answer `AutoActivationFailed` leaves the endpoint active.
- The order in which `job.items()` visits attributes is left open. When several attributes name one endpoint, which of them is reset is chosen nondeterministically.
- Activation.Await: the interactive prompt loop runs over a finite script of operator answers. Running out of answers is the operator's ctrl-c, so an operator who never activates and never aborts is not modelled.
- LegacyCli.Transfer: the legacy exit statuses (globus.py:14-16) are all 1, like a Python traceback and click's abort. The model keeps them apart by naming which exit fired, so it does not state that a caller cannot tell them apart. The legacy tool does not check `is_interactive()`; the operator script drives its single prompt either way.
- TaskWait.WaitForTaskOrExit: the timeout and the polling interval are passed to `task_wait` and have no effect in the model. `poll(k)` stands for the k-th call's answer.
- TransferCommand.Transfer: the task id the service returns is a parameter. Label, sync level, timestamp preservation and checksum verification are carried only by the SDK's transfer data.
- Release.Release: `schedd.act` is modelled as appending the cluster id to the released list. The scheduler's holds and the write-back of attributes to the scheduler are not modelled beyond the job's attribute map.
