# Launchpad bug helper, modelled in Dafny

This project models the small amount of logic that a helper over the
Launchpad bug tracker owns. The helper and the script built on it do three
things:

- **`LaunchpadAssistant`** (`launchpad_helper.py`) holds the bug it is
  currently working on (`self.bug`). It searches bugs by tag and loads a bug
  by id. Before creating a bug it validates the project, the series and the
  assignee. It then creates the bug, re-targets its first task, nominates a
  series and sets assignee, status and importance on the last task. It also
  applies partial updates to a loaded bug. Every bug it creates or updates
  comes back with the bug's web URL, chosen by the service environment
  (`production`, `staging` or `qastaging`). `collect_bug_information` turns
  a bug task into a flat summary: status, title, space-joined tags, the
  assignee's name or `""`, and importance.
- **The CID showcase script** (`launchpad_helper_cid_showcase.py`) searches
  the bugs tagged with each device identifier (CID). It folds the
  `(cid, bug)` pairs into `lp_api_return`, a dictionary from bug number to
  `{link, title, CID list}`. A bug seen again only gets the CID appended.
  For every bug it also extracts the `[Failure rate] … [Stage]` section of
  the description, which it only prints. The record's title is the first
  double-quoted part of the task title.

Files:

- `wrappers.dfy`: `Option` and `Result`.
- `text.dfy` (module `Text`): the Python string behaviour the code relies
  on.
  - `str.isspace`, `str.split()`, `" ".join` and `str.strip()`.
  - Decimal formatting of a non-negative integer.
  - The leftmost substring search that the two fixed regular expressions
    reduce to.
- `launchpad_helper.dfy` (module `LaunchpadHelper`):
  - bugs and tasks as datatypes;
  - the remote service as a `Directory` of what exists, which the
    assistant reads its lookups from and writes the bugs it saves back to;
  - `LaunchpadAssistant` as the class `Assistant`, whose `bug` field the
    methods update.
- `cid_showcase.dfy` (module `CidShowcase`):
  - the two extractions and the link format;
  - the aggregation as the method `Correlate`, with nested loops that
    update the table in place;
  - a proof that `Correlate` computes a fold specification `Run` over all
    `(cid, bug)` pairs, and the properties of the resulting table proved
    about `Run`.

Two paths of the code behave differently from what a reader would expect.
The model follows the code on both:

- **`create_bug` with a bug already loaded.** One would expect this path to
  overwrite the loaded bug's title, description and tags. The code
  (`launchpad_helper.py:151-153`) instead reads `self.lp_title`,
  `self.lp_description` and `self.lp_tags`, which no code ever assigns. So
  this path raises `AttributeError` before writing anything. `CreateBug`
  returns `Failure(AttributeError("lp_title"))` here and leaves the loaded
  bug as it was.
- **A new bug whose task title has no quoted part.** The showcase script
  (`launchpad_helper_cid_showcase.py:42-48`) then uses the variable
  `content` from an earlier bug. If no earlier bug set it, the variable is
  unbound and the script stops with `NameError`. The model carries
  `content` from one pair to the next as an `Option`:
  - `StaleTitle` proves that such a bug gets the previous bug's label as
    its title;
  - `UnboundTitle` proves that the first such bug makes the run fail.

## Model

| member | source | states |
|---|---|---|
| Text.Split | launchpad_helper.py:145 | `tags.split()` yields only non-empty tokens free of whitespace; `Text.SplitSpaceThen` and `Text.SplitWordThen` together fix the result on every input |
| Text.SplitSpaceThen | launchpad_helper.py:145 | whitespace in front of a string (spaces, tabs, newlines, repeated) adds no tokens |
| Text.SplitWordThen | launchpad_helper.py:145 | a run of non-whitespace characters followed by whitespace or the end becomes one token, followed by the tokens of the rest |
| Text.SplitJoin | launchpad_helper.py:16 | joining whitespace-free tokens with single spaces and splitting again gives the same tokens back |
| Text.JoinSplitStable | launchpad_helper.py:16 | splitting the space-joined split of a string gives that string's tokens again |
| Text.Join | launchpad_helper.py:16 | an empty tag list joins to `""`; a single tag joins to itself |
| Text.Strip | launchpad_helper_cid_showcase.py:23 | the result is a contiguous piece of the input that neither starts nor ends with whitespace; only whitespace lies before and after it |
| Text.DecimalString | launchpad_helper.py:183 | formatting a bug id gives a non-empty string of decimal digits that starts with `0` only when it is `"0"` itself, as `f"{id}"` does |
| Text.DecimalRoundTrip | launchpad_helper.py:183 | the decimal digits of an id denote that id |
| Text.DecimalInjective | launchpad_helper.py:183 | distinct ids are formatted differently |
| Text.IndexOf | launchpad_helper_cid_showcase.py:19 | returns the first occurrence of a fixed pattern at or after a position, or none when there is no occurrence at or after it |
| LaunchpadHelper.CollectBugInformation | launchpad_helper.py:6-21 | status and importance come from the task, the title is the task's title, the tags are the bug's tags joined by spaces, and the assignee is the name or `""` when there is none |
| LaunchpadHelper.SummaryTagsRoundTrip | launchpad_helper.py:16 | the summary's tags string splits back into the bug's tag list |
| LaunchpadHelper.SummaryAssigneeEmpty | launchpad_helper.py:17 | the summary's assignee is `""` exactly when the task has no assignee |
| LaunchpadHelper.ServiceRoot | launchpad_helper.py:180-181 | the environment value when set, otherwise `"production"` |
| LaunchpadHelper.WebRoot | launchpad_helper.py:182-187 | the qastaging root for `"qastaging"`, the staging root for `"staging"`, the production root for every other value |
| LaunchpadHelper.BugUrl | launchpad_helper.py:180-187 | the URL is the chosen web root, then `bugs/`, then exactly the decimal form of the bug id (no leading zeros), whose digits denote the id |
| LaunchpadHelper.BugUrlInjective | launchpad_helper.py:182-187 | within one environment, two bugs with the same URL have the same id |
| LaunchpadHelper.DefaultEnvironmentIsProduction | launchpad_helper.py:180-187 | with the environment variable unset, the URL is the production root followed by `bugs/<id>` |
| LaunchpadHelper.CheckProjectExist | launchpad_helper.py:80-92 | succeeds exactly for an existing project; otherwise fails with `<name> launchpad project not found` |
| LaunchpadHelper.CheckSeriesExist | launchpad_helper.py:94-104 | succeeds with the series target exactly when the project has that series; otherwise fails with `<name> series not found` |
| LaunchpadHelper.CheckAssigneeExist | launchpad_helper.py:106-117 | succeeds exactly for an existing user; otherwise fails with `<name> launchpad user not found` |
| LaunchpadHelper.NewBug | launchpad_helper.py:142-147 | a created bug has the request's title and description, the whitespace-split tags, and one task on the project |
| LaunchpadHelper.ConfigureTasks | launchpad_helper.py:156-178 | the first task targets the validated project; when it is not the last task, only its target changes; a series adds one task on that series; the last task gets the status and importance, and the assignee when one was given, and keeps its target when no series is added; every task between the first and the last (including the former last task when a series is added) and the bug's own fields are unchanged |
| LaunchpadHelper.ApplyUpdate | launchpad_helper.py:221-240 | assignee, status, importance and tags are overwritten only when given; the first three only on the first task; every other task and field is unchanged |
| LaunchpadHelper.ApplyUpdateIdempotent | launchpad_helper.py:221-240 | applying the same partial update twice equals applying it once |
| LaunchpadHelper.ApplyUpdateEmpty | launchpad_helper.py:223-237 | a request with no assignee, status, priority or tags leaves the bug unchanged |
| LaunchpadHelper.CreatedBugSummary | launchpad_helper.py:169-178 | the summary of a created bug's last task has the requested status and importance, the requested tags joined by single spaces (splitting back to the same tokens), and the assignee's name or `""` |
| LaunchpadHelper.Assistant.constructor | launchpad_helper.py:24-44 | a new assistant uses the service root from the environment (default `production`), starts from the given view of the service and has no bug loaded |
| LaunchpadHelper.Assistant.SearchBugs | launchpad_helper.py:46-62 | an unknown project fails with the project error; a failed search fails with `Failed to search bugs by <cid>`; otherwise one `(bug, summary)` per task found, in order (none when nothing matched) |
| LaunchpadHelper.Assistant.GetBugInformation | launchpad_helper.py:64-78 | a known id becomes the current bug (as last saved) and comes back with the summary of its first task; an unknown id fails with `<id> launchpad bug not found` and leaves the current bug alone |
| LaunchpadHelper.Assistant.CreateBug | launchpad_helper.py:119-192 | project, then series (when given), then assignee (when given) are validated before anything is written, and the first failure is returned with the service left unchanged; with a bug already loaded it fails on the unset `lp_title`; otherwise the current bug becomes the configured new bug, saved under its fresh id and returned with its URL; the current bug is always the bug saved under its id |
| LaunchpadHelper.Assistant.UpdateBug | launchpad_helper.py:217-253 | without a loaded bug it fails; an unknown assignee fails before any write; otherwise the current bug becomes its partial update, saved under its id (so a later load sees it) and returned with the same URL `create_bug` computes |
| CidShowcase.BugLink | launchpad_helper_cid_showcase.py:27 | the link is `https://bugs.launchpad.net/<project>/+bug/` followed by exactly the decimal form of the bug number, whose digits denote it |
| CidShowcase.FailureRateSection | launchpad_helper_cid_showcase.py:19-26 | there is a section exactly when some `[Failure rate]` is followed later by a `[Stage]` |
| CidShowcase.FailureRateSectionIs | launchpad_helper_cid_showcase.py:19-23 | the section is the stripped text between the first `[Failure rate]` and the first `[Stage]` after it, newlines included |
| CidShowcase.NextQuoteOrNewline | launchpad_helper_cid_showcase.py:39-40 | finds the first quote or newline at or after a position, where the non-greedy `.*?` must stop |
| CidShowcase.QuotedFrom | launchpad_helper_cid_showcase.py:39-41 | a match is text between two quotes of the title, with no quote or newline inside |
| CidShowcase.QuotedLabel | launchpad_helper_cid_showcase.py:39-43 | a label is text between two quotes of the title, with no quote or newline inside; a title without quotes has none |
| CidShowcase.QuotedLabelIs | launchpad_helper_cid_showcase.py:39-43 | the label is the text between the first quote and the next one, when no newline comes between them |
| CidShowcase.QuotedLabelSingleLine | launchpad_helper_cid_showcase.py:39-43 | a one-line title with two quotes always has a label |
| CidShowcase.QuotedLabelOf | launchpad_helper_cid_showcase.py:39-43 | for a title made of quote-free text and then a quoted part, the label is that quoted part |
| CidShowcase.TaskTitleLabel | launchpad_helper_cid_showcase.py:37-43 | for a task title in the service's format, the label is the bug's own title |
| CidShowcase.Step | launchpad_helper_cid_showcase.py:32-49 | one iteration of the inner loop fails exactly when the bug is new, its title has no quoted part and `content` is still unbound, and then fails with `NameError` on `content` |
| CidShowcase.Run | launchpad_helper_cid_showcase.py:9-49 | the whole fold over all pairs in loop order; the only way it fails is the `NameError` on `content`, and while `content` is unbound no record has been added |
| CidShowcase.StepTitles | launchpad_helper_cid_showcase.py:32-49 | one pair keeps every existing record's link and title and adds the bug's number as a key; a known bug, or a labelled title, never fails; a new bug is appended to the insertion order with record `{link, content, [cid]}`, where `content` is its label when it has one and the previous label otherwise; a known bug leaves `content` as it was |
| CidShowcase.RunKeys | launchpad_helper_cid_showcase.py:32-49 | the table's keys are the bug numbers seen, inserted in first-seen order |
| CidShowcase.RunRecords | launchpad_helper_cid_showcase.py:27-49 | each record's link is its bug's link; its CID list holds the CIDs that matched the bug, in processing order |
| CidShowcase.RunCount | launchpad_helper_cid_showcase.py:32-49 | the table holds one CID entry per `(cid, bug)` pair processed |
| CidShowcase.RunTable | launchpad_helper_cid_showcase.py:9-49 | after the loops: one record per distinct bug number, in first-seen order, each with its link and its CIDs in order, and one CID entry per pair |
| CidShowcase.RepeatOnlyAppends | launchpad_helper_cid_showcase.py:32-34 | a bug matched again keeps its link and title and only gets the CID appended; no other record changes, the insertion order is unchanged and `content` keeps the last label found |
| CidShowcase.RunLabelled | launchpad_helper_cid_showcase.py:36-49 | when every task title has a quoted part, the script does not fail and each record is titled with the label of the first title seen for that bug |
| CidShowcase.DescriptionsIgnored | launchpad_helper_cid_showcase.py:17-26 | changing only descriptions does not change the outcome: the failure-rate text never reaches the table |
| CidShowcase.FailureStops | launchpad_helper_cid_showcase.py:42-48 | once the script has failed, later pairs do not change the outcome |
| CidShowcase.Correlate | launchpad_helper_cid_showcase.py:9-49 | the nested loops produce exactly the table that `Run` describes, and fail with the same error exactly when `Run` fails |
| CidShowcase.StaleTitle | launchpad_helper_cid_showcase.py:42-48 | a new bug whose title has no quoted part is titled with the label of the bug before it |
| CidShowcase.UnboundTitle | launchpad_helper_cid_showcase.py:42-48 | if the first bug's title has no quoted part, the script fails with `NameError` on `content` |

## Left out

- Logging in to the service, the credential directory and the `launchpad.me`
  probe (`launchpad_helper.py:24-44`). These are authentication and
  filesystem I/O. The constructor only records the directory, the
  environment and the web roots.
- Every remote call: `searchTasks`, `bugs[...]`, `createBug`,
  `addNomination`/`approve` and `lp_save`.
  - Lookups read a `Directory` value.
  - The id the service gives a new bug is the parameter `newId`. It is
    required not to be in use, which is what the service guarantees.
  - A search's result, or its failure, is the parameter `found`.
  - Saving a bug (`createBug`, `lp_save`) writes it back to the assistant's
    `Directory` under its id, all at once at the end of `CreateBug` or
    `UpdateBug`.
- Only the assistant's own writes reach its `Directory`. Changes that other
  clients make to the service after construction are not seen.
- Returned bugs are values, not objects. The code returns `self.bug`, an
  object that later calls keep changing. The model returns a copy of the
  bug at that moment, and the current bug is held in the field `bug`.
- `upload_attachments` and `add_comment` (`launchpad_helper.py:194-215`) only
  forward to the service and keep no state of their own.
- The values of `LPNET_WEB_ROOT`, `STAGING_WEB_ROOT` and
  `QASTAGING_WEB_ROOT`. They live in the client library and are the
  `WebRoots` parameter here.
- The environment variable. It is an `Option<string>` given to the
  constructor, read once. The code reads it again on every call, which
  gives the same value while the environment does not change.
- General regular expressions. Only the two fixed patterns are modelled, as
  substring searches.
- All `print` output, including the final print of `lp_api_return`.
- The loop at `launchpad_helper_cid_showcase.py:29-30`, which does nothing.
- The script builds a new `LaunchpadAssistant` per CID
  (`launchpad_helper_cid_showcase.py:12`). It also fixes its list of CIDs
  and its project (`:4-5`). `Correlate` instead takes the project and the
  searches' results as inputs.
- A failing search inside the script. It raises out of the script, so the
  partly built table is never printed. `Correlate` takes only searches that
  succeeded.
- The `KeyError` that `bug_dict[...]` raises for a missing key
  (`launchpad_helper.py:128-145`, `224-235`). `BugDict` has every key, and
  the empty string stands for a value Python treats as false.
- What the service does when it creates a task: it gives an unassigned task
  with status `New` and importance `Undecided` (`InitialStatus`,
  `InitialImportance`). It writes a task title as
  `Bug #<id> in <target>: "<title>"` (`TaskTitle`). It lists a nominated
  series task after the existing ones. These are assumptions about the
  service.
- A series task that the service may create alongside the nominated one is
  not modelled. Nomination adds exactly one task.
- Bug ids are natural numbers. The code formats `bug_id` into its error
  message whatever its type.
- Text.Join: its own contract states only the empty and one-tag cases. What
  joining means is stated by the round trip `Text.SplitJoin`.
- CidShowcase.FailureRateSection: its own contract states only when there is
  a section. Which text the section holds is stated by
  `CidShowcase.FailureRateSectionIs`. `Correlate` computes the section and
  drops it, because the script only prints it.
- Python `str.isspace` and `strip()` are modelled on the characters Python
  treats as whitespace. The model includes no other Unicode behaviour.
