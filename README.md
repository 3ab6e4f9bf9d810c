# Instagram messenger: a Dafny model of its campaign core

The messenger is a Streamlit dashboard that reads a list of Instagram
profile addresses from an uploaded sheet, logs in to a browser session, and
sends one message to every profile not yet messaged, up to a per-run limit
(which the form labels 'Max Messages/Day').
Every attempt is appended to a results CSV. The set of profiles "already
sent" is recomputed from that log each time a run starts. A scheduler
class holds configurations to replay at fixed "HH:MM" times of day.

This project models that core:

- **`FileIo`** (`file_io.dfy`, for `app/modules/file_Io.py`) covers two things:
  - Profile loading: strip, drop missing cells, filter by prefix, and the
    three wrapped errors.
  - The results log as a sequence of CSV records on `ResultsFile`: header
    initialisation, the row format with its 500- and 200-character
    truncations, the swallowed write failure, reading the table back, and the
    "already sent" set.
  - `ResultStore` is the file that the methods change in place.
- **`Campaign`** (`campaign.dfy`) is the send loop shared by the foreground
  campaign and a scheduled task, as a function over values. The browser is
  replaced by an `Oracle`, which gives:
  - the login outcome;
  - the outcome of the k-th send and the k-th log write;
  - the k-th timestamp.

  A stop flag `stopAt(i)` says whether the results view's stop button had
  been pressed by the time the loop reached profile i. The lemmas here are
  the loop's promises:
  - the limit;
  - no re-send;
  - list order;
  - stop;
  - coverage;
  - agreement between the log and the in-memory sent set.
- **`Messaging`** (`messaging.dfy`) is the browser session's protocol:
  - log in once;
  - send only while logged in;
  - `close` always allowed, and counted.
- **`TaskScheduler`** (`scheduler.dfy`, for `app/modules/scheduler.py`)
  contains:
  - the `Scheduler` class, with its task list, its `running` flag and its
    worker flag;
  - `_execute_task`, as the method `ExecuteTask` proved against the function
    `ExecuteTaskSpec`;
  - one pass of the polling loop (`Poll`).

  A task dictionary is a `Task` whose looked-up keys are `Option`s. A missing
  key raises `KeyError` where the source first reads it, and the catch-all
  turns that into `Raised(KeyMissing(key))`.
- **`App`** (`main_app.dfy`, for `app/main.py`) contains:
  - the validation of the configuration form (`Submit`);
  - the session state, together with the foreground `run_message_campaign`
    loop and its cleanup;
  - the two schedule lists (`scheduler.tasks` and
    `session_state.scheduled_tasks`), which are added to and removed from
    in lockstep.

Behaviour the model keeps from the code:

- A task added from the scheduler tab is `{'time': ..., **config}`, and the
  configuration has no `file` key. Running such a task therefore stops at
  `task['file']` in the catch-all: it sends nothing and leaves the log as it
  was (`App.ScheduledTaskDoesNothing`, `App.ScheduledTasksLeaveLog`).
- Both loops test the limit before the sent-set membership. A run whose
  remaining profiles are all already sent can therefore end with
  `LimitReached` where one might expect `Exhausted`.
- The foreground campaign initialises the log and reads the sent set before
  it authenticates (app/main.py:144-151), so a refused login can still leave
  the freshly written header (`App.CampaignSpec`: `r.file == InitFile(f)`).
  The scheduler authenticates first (app/modules/scheduler.py:68-76).
- A failed send always writes the fixed error text `Failed to send message`
  (app/modules/scheduler.py:90, app/main.py:170), never the exception text.
- Nothing in app/main.py calls `Scheduler.start()`: the only `.start()` there
  (app/main.py:129) starts the campaign thread. In the dashboard as written
  the scheduler's worker therefore never runs; `Poll` models what one pass
  of it would do.
- A results file that exists but is empty gets no header from
  `init_results_file` (app/modules/file_Io.py:46). The first row appended is
  then read back as the header, and `load_sent_profiles` returns the empty
  set from then on, so every later run sends to every profile again
  (`FileIo.EmptyLogNeverSent`).

## Model

| member | source | states |
|---|---|---|
| Text.Strip | app/modules/file_Io.py:20 | the result has no leading or trailing whitespace, and it is the input with only whitespace removed from each end |
| Text.StripStripped | app/modules/file_Io.py:20 | stripping an already stripped string changes nothing |
| Text.Take | app/modules/file_Io.py:61-63 | a slice `s[:n]`: a prefix of length `min(n, |s|)`, the whole string when it is short enough |
| FileIo.LoadErrorText | app/modules/file_Io.py:28-29 | every load error reaches the caller as text beginning `Error loading profiles: ` |
| FileIo.CleanKeeps | app/modules/file_Io.py:20 | the stripped value of every text cell of the column is in the cleaned column |
| FileIo.CleanFrom | app/modules/file_Io.py:20 | every entry of the cleaned column is the stripped value of some text cell; missing cells contribute nothing |
| FileIo.CleanColumnSpec | app/modules/file_Io.py:20 | the cleaned column holds only stripped text, holds the stripped value of every text cell, and nothing else |
| FileIo.CleanColumn | app/modules/file_Io.py:20 | `df["URL"].str.strip().dropna().tolist()`: the stripped text of the column's text cells in column order, missing cells dropped; its properties are `CleanKeeps`, `CleanFrom` and `CleanColumnSpec` |
| FileIo.KeepMembers | app/modules/file_Io.py:21 | an entry is kept exactly when it is in the input and starts with `https://www.instagram.com/` or `instagram.com/` |
| FileIo.KeepSubseq | app/modules/file_Io.py:21 | the kept entries are an order-preserving subsequence of the input |
| FileIo.KeepCounts | app/modules/file_Io.py:21 | every accepted entry is kept as often as it occurs in the input |
| FileIo.KeepProfileUrlsSpec | app/modules/file_Io.py:21 | only accepted entries remain, in order, each accepted entry with its multiplicity, and membership is exactly "in the input and accepted" |
| FileIo.NoneKept | app/modules/file_Io.py:21-24 | the filtered list is empty exactly when no cleaned entry has an accepted prefix |
| FileIo.IsProfileUrl | app/modules/file_Io.py:21 | the `url.startswith(('https://www.instagram.com/', 'instagram.com/'))` test: the address starts with one of the two accepted prefixes |
| FileIo.KeepProfileUrls | app/modules/file_Io.py:21 | the list comprehension keeping the entries that start with one of the two accepted prefixes; its properties are `KeepMembers`, `KeepSubseq`, `KeepCounts` and `KeepProfileUrlsSpec` |
| FileIo.LoadErrors | app/modules/file_Io.py:12-29 | an unreadable sheet, a missing `URL` column and a column with no accepted entry each give their own error, exactly in those cases |
| FileIo.LoadedProfiles | app/modules/file_Io.py:16-26 | a successful load is a non-empty, stripped, accepted, order-preserving subsequence of the cleaned `URL` column that keeps every accepted entry with its multiplicity |
| FileIo.LoadProfiles | app/modules/file_Io.py:10-29 | `load_profiles`: the read failure, the missing `URL` column and the empty filtered list as errors, otherwise the filtered list; its properties are `LoadErrors` and `LoadedProfiles` |
| FileIo.InitFile | app/modules/file_Io.py:44-50 | an absent file is created holding just the header; an existing file is left unchanged |
| FileIo.InitIdempotent | app/modules/file_Io.py:46-50 | initialising twice is the same as initialising once |
| FileIo.ErrorCell | app/modules/file_Io.py:63 | a falsy error gives `''`, any other error its first 200 characters |
| FileIo.MakeRow | app/modules/file_Io.py:58-64 | the row `record_result` writes: profile, status, message cut to 500 characters, timestamp, error cell; its properties are `MakeRowFields` |
| FileIo.MakeRowFields | app/modules/file_Io.py:58-64 | a written row has the five header fields; the message is a prefix of at most 500 characters; the error cell is empty exactly for a falsy error, else a prefix of at most 200 characters |
| FileIo.Append | app/modules/file_Io.py:56-64 | appending adds exactly one record at the end and keeps the earlier ones; an absent file is created with just that record |
| FileIo.GetResults | app/modules/file_Io.py:69-77 | an absent or empty file gives the empty table; otherwise the first record is the header and the remaining records are the rows, in order |
| FileIo.GetAfterAppendAll | app/modules/file_Io.py:56-73 | after any number of appends, reading the table gives the old header and the old rows followed by the appended rows in order |
| FileIo.AppendAll | app/modules/file_Io.py:53-66 | a sequence of successful `record_result` writes, one record each, in order; its properties are `AppendAllLines` and `GetAfterAppendAll` |
| FileIo.AppendAllLines | app/modules/file_Io.py:56-64 | appending to an existing file leaves its old records first and adds the new ones after them, in order |
| FileIo.EmptyLogNeverSent | app/modules/file_Io.py:36-50 | an existing empty file is not given a header; the first appended record is read as the header, and when it has no `Profile URL` cell the sent set stays empty whatever follows |
| FileIo.LoadSentSpec | app/modules/file_Io.py:32-41 | exactly the `Profile URL` values of records whose `Status` is `Success`; the empty set for an absent or empty file, or one lacking those columns |
| FileIo.LoadSentProfiles | app/modules/file_Io.py:32-41 | `load_sent_profiles` as a set comprehension over the records after the header; its properties are `LoadSentSpec`, `SentAfterAppend` and `LoggedSent` |
| FileIo.SentAfterAppend | app/modules/file_Io.py:35-37 | one appended record adds at most its own profile to the sent set, and only when its status is `Success` |
| FileIo.MadeRowSent | app/modules/file_Io.py:37-64 | under the standard header, a row written by `record_result` counts as sent exactly when its status is `Success` |
| FileIo.ResultStore.InitResultsFile | app/modules/file_Io.py:44-50 | the file becomes its initialised form; an existing file is untouched |
| FileIo.ResultStore.RecordResult | app/modules/file_Io.py:53-66 | a successful write appends the formatted row; a failed write is swallowed and leaves the file as it was |
| Campaign.LoggedStep | app/modules/scheduler.py:86-91 | recording the k-th attempt appends its row when the k-th write succeeds, and otherwise leaves the log unchanged |
| Campaign.StatusText | app/modules/scheduler.py:85 | the status written for an attempt, `"Success" if success else "Failed"` (also app/main.py:165); `AttemptRowFields` states what it puts in the row |
| Campaign.AttemptRow | app/modules/scheduler.py:85-91 | the row recorded for one attempt: `Success` or `Failed`, the message, the attempt's timestamp, and the fixed failure text only for a failed send; its properties are `AttemptRowFields` |
| Campaign.LoggedRows | app/modules/scheduler.py:84-91 | the rows that reach the log for a sequence of attempts: the k-th attempt's row exactly when the k-th write succeeds; its properties are `AllWritesLogged` and `SuccessRowsCounted` |
| Campaign.Loop | app/modules/scheduler.py:78-99 | the shared `for` loop from position i: stop flag, then limit, then sent-set membership, then a send that adds a success to the set and the count; its properties are the `Loop*` and `Run*` lemmas |
| Campaign.Run | app/main.py:145-189 | the loop from the first profile, with the sent set read at the start and a count of 0; its properties are `RunWithinLimit`, `RunNoResend`, `RunSentSet`, `RunInOrder`, `RunPrefix` and `RunCovers` |
| Campaign.SendAndRecord | app/modules/scheduler.py:84-91 | one send through the logged-in browser, with the k-th send outcome, and its row recorded as the k-th write: the log is that of the attempts so far plus this one |
| Campaign.RunWithinLimit | app/modules/scheduler.py:76-94 | `messages_sent` counts exactly the successful attempts and never passes `max_messages`; a limit of 0 or less means no attempt at all |
| Campaign.RunNoResend | app/modules/scheduler.py:75-95 | no attempt is on a profile in the starting sent set, and no profile is attempted again after a successful send to it |
| Campaign.RunSentSet | app/main.py:145-175 | the final sent set is the snapshot plus the profiles of successful attempts; it only grows, and each added profile comes from a successful attempt |
| Campaign.RunInOrder | app/main.py:155-164 | each attempt names the profile at its list position; positions strictly increase; no attempt is made at or after a position where the stop flag was seen |
| Campaign.RunPrefix | app/modules/scheduler.py:78-99 | a run cut short after some of its attempts keeps the no-re-send, ordering and limit guarantees |
| Campaign.RunCovers | app/main.py:155-163 | a run that went through the whole list left no profile both unsent and unattempted |
| Campaign.AttemptRowFields | app/modules/scheduler.py:84-91 | an attempt's row has the profile and the timestamp; its status is `Success` exactly for a successful send; its error cell is `Failed to send message` for a failed one and empty otherwise |
| Campaign.AllWritesLogged | app/modules/scheduler.py:84-91 | when every write succeeds, the log gains exactly one row per attempt, in attempt order |
| Campaign.SuccessRowsCounted | app/main.py:166-174 | the `Success` rows written never outnumber the successful sends, and match them when no write fails |
| Campaign.RunLogWithinLimit | app/modules/scheduler.py:79-94 | a run never writes more `Success` rows than `max_messages` |
| Campaign.LoggedSent | app/main.py:163-175 | reading back a log with the standard header gives the old sent set plus this run's successes |
| Campaign.ScenarioLimit | app/modules/scheduler.py:78-95 | with profiles `[A, B, C]`, A already sent and a limit of 1, only B is attempted and the run ends at the limit; when that write succeeds the log gains exactly B's `Success` row |
| Messaging.Browser.constructor | app/modules/scheduler.py:68 | a new browser session is not logged in and has never been closed |
| Messaging.Browser.Login | app/modules/scheduler.py:70-71 | the core only learns whether the login succeeded; the session is logged in exactly then |
| Messaging.Browser.SendMessage | app/modules/scheduler.py:84 | a send happens only in an open, logged-in session and reports the outcome it is given |
| Messaging.Browser.Close | app/modules/scheduler.py:101-102 | closing is allowed in any state, ends the login and is counted |
| TaskScheduler.AfterInit | app/modules/scheduler.py:74-99 | after initialisation, the log holds exactly the rows of the attempts made, which are a prefix of the full loop's attempts; a missing `max_messages` or `message` stops before anything is logged |
| TaskScheduler.AfterInitDone | app/modules/scheduler.py:75-99 | a loop that ran off the list or reached the limit completes with `Exhausted` or `LimitReached` and the log of its attempts |
| TaskScheduler.AfterInitNoMessage | app/modules/scheduler.py:84 | reaching the first send without `message` raises at that key with nothing logged |
| TaskScheduler.AfterInitNoDelay | app/modules/scheduler.py:98 | without `message_delay` the task raises after its first recorded attempt, with exactly that attempt logged |
| TaskScheduler.ExecuteTaskSpec | app/modules/scheduler.py:58-105 | a missing `file` raises and logs nothing; without initialisation the file is untouched and nothing is attempted; initialisation happens exactly when the profiles load, both credentials are present and the login succeeds; the login fails exactly when it is reached and refused |
| TaskScheduler.DueAtNow | app/modules/scheduler.py:49-51 | every task run in one pass has its `time` equal to the current minute |
| TaskScheduler.DueInOrder | app/modules/scheduler.py:49-51 | the tasks run in one pass keep their list order |
| TaskScheduler.DueCount | app/modules/scheduler.py:49-51 | a task due at the current minute is run as often as it occurs in the list |
| TaskScheduler.Due | app/modules/scheduler.py:49-51 | the tasks whose `time` equals the current minute, in list order; its properties are `DueAtNow`, `DueInOrder` and `DueCount` |
| TaskScheduler.RunAll | app/modules/scheduler.py:46-51 | the results file after the due tasks run one after another, each on the file the previous one left; `Poll` is proved against it |
| TaskScheduler.TaskMissingKeys | app/modules/scheduler.py:62-105 | a task lacking `file`, `username`, `password`, `max_messages` or `message` makes no attempt and adds no record beyond the header; one lacking `message_delay` stops after its first attempt |
| TaskScheduler.TaskWithinLimit | app/modules/scheduler.py:79-94 | a task never logs more `Success` rows than its `max_messages` |
| TaskScheduler.TaskNoResend | app/modules/scheduler.py:75-95 | a task never attempts a profile already sent at its start or earlier in the same run, and it attempts profiles in list order |
| TaskScheduler.TaskLogRows | app/modules/scheduler.py:84-91 | an initialised task keeps the old header and rows and appends its attempts' rows after them; with every write succeeding, that is one row per attempt in order |
| TaskScheduler.Scheduler.constructor | app/modules/scheduler.py:13-16 | a new scheduler is not running, has no tasks and no worker |
| TaskScheduler.Scheduler.AddTask | app/modules/scheduler.py:18-21 | the task is appended at the end and nothing else changes |
| TaskScheduler.Scheduler.RemoveTask | app/modules/scheduler.py:23-27 | an in-range index removes exactly that task and keeps the others in order; any other index changes nothing |
| TaskScheduler.Scheduler.Start | app/modules/scheduler.py:29-35 | when already running, nothing changes; otherwise the scheduler is running with a worker |
| TaskScheduler.Scheduler.Stop | app/modules/scheduler.py:37-42 | afterwards the scheduler is not running, and the task list is unchanged |
| TaskScheduler.Scheduler.RunSession | app/modules/scheduler.py:68-99 | the credentials check, login, initialisation and loop produce the outcome and the log of `ExecuteTaskSpec`, and leave the browser open |
| TaskScheduler.Scheduler.SendLoop | app/modules/scheduler.py:74-99 | the loop's end and the log are those of `AfterInit` |
| TaskScheduler.Scheduler.ExecuteTask | app/modules/scheduler.py:58-105 | the outcome and the log are those of `ExecuteTaskSpec`; a browser is opened exactly when the profiles load, and it is then closed exactly once |
| TaskScheduler.Scheduler.Poll | app/modules/scheduler.py:46-51 | when running, every task due at the current minute is executed, in list order, and the log is that of running them one after another |
| App.Submit | app/main.py:95-134 | an empty username, password or message, a missing upload and a failed load are each reported exactly in their own case, a load error behind `Error: `; otherwise the campaign starts with the form's fields, the loaded profiles and a message delay of (10, 30) |
| App.SubmitStarted | app/main.py:110-122 | a started campaign carries profiles that satisfy everything a successful `load_profiles` promises |
| App.HandleConfigSubmission | app/main.py:95-134 | the outcome is `Submit`'s; only a started campaign stores the profiles and the configuration in the session |
| App.ScheduledTask | app/main.py:216-219 | a task built by the scheduler tab carries the time and the configuration's keys, but no `file` |
| App.ScheduledTaskDoesNothing | app/modules/scheduler.py:62-63 | executing a task from the scheduler tab raises at `file`, attempts nothing and leaves the log unchanged |
| App.ScheduledTasksLeaveLog | app/modules/scheduler.py:49-51 | any sequence of scheduled runs of such tasks leaves the log unchanged |
| App.CampaignSpec | app/main.py:136-193 | the log gains only the campaign's attempts after initialisation; login fails exactly when the campaign reports it, and then there are no attempts and the count is 0; `messages_sent` counts the successes within the limit; the sent set is the snapshot plus the successes |
| App.CampaignNoResend | app/main.py:155-164 | no attempt is on a profile in the starting sent set or on one already sent in the run; attempts follow list order; none is made at or after the profile where the stop flag was seen |
| App.CampaignLogAgrees | app/main.py:145-175 | for a results file that is absent or starts with the standard header, and every write succeeding, the session's final `sent_profiles` equals what reading the log gives |
| App.CampaignSuccessRows | app/main.py:159-174 | the log gains at most `messages_sent` `Success` rows, and exactly that many when no write fails |
| App.CampaignCovers | app/main.py:155-163 | a campaign that went through the whole list left no profile both unsent and unattempted |
| App.SessionState.constructor | app/main.py:13-23 | a fresh session: empty sent set, count 0, no schedules, not running, a new idle scheduler |
| App.SessionState.Configure | app/main.py:112-122 | the profiles and the configuration are stored; nothing else in the session changes |
| App.SessionState.MarkSent | app/main.py:173-175 | a successful send adds one to `messages_sent` and the profile to `sent_profiles`; nothing else changes |
| App.SessionState.Halt | app/main.py:271-274 | the stop button clears `running`; nothing else changes |
| App.SessionState.InStep | app/main.py:218-221 | the schedule list the scheduler tab shows is the scheduler's own task list; `AddSchedule` and `RemoveSchedule` preserve it |
| App.AddSchedule | app/main.py:212-222 | without a stored configuration nothing changes; otherwise the same task is appended to both `scheduler.tasks` and `scheduled_tasks`, which stay in step; no other field of the session or the scheduler changes |
| App.RemoveSchedule | app/main.py:236-239 | both lists lose element i (the scheduler ignoring an index past its own list) and remain in step; no other field of the session or the scheduler changes |
| App.RunMessageCampaign | app/main.py:136-193 | the log, `sent_profiles` and `messages_sent` are those of `CampaignSpec`; on every path the browser is closed exactly once and `running` ends false |
| App.CampaignLoop | app/main.py:155-189 | the loop's effect on the session and the log is that of the `Campaign` loop with the stop flag |

## Left out

- `app/modules/browser.py` (Selenium, element waits, typing delays) is not part of this model. `Messaging.Browser` only returns the outcome that the oracle supplies.
- Sleeps, random delays and the batch cooldown (wall clock and random floats) are left out. The `message_delay` key is looked up, as the source does, but its value is never used.
- The progress percentage is left out: it is a float division and only displayed.
- Threads are left out. The campaign thread is started by the submission in the source; here the caller runs `RunMessageCampaign`. The scheduler worker and `join` appear only as the `running` and `hasThread` flags. Races between the two threads are not modelled.
- The outer `while self.running` loop of `_run_scheduler` and its 30- and 60-second sleeps are left out. `Poll` is one pass, given the current "HH:MM" text.
- Streamlit rendering, forms, CSS and the download button are left out. The session keys `progress` and the results view's display are left out too. `init_session_state` is modelled as the first-time construction of `SessionState`, since on later calls every key is already present.
- pandas and spreadsheet parsing are left out. A sheet is given as its columns of optional cells, and the log as its CSV records. Ragged rows, quoting and NaN cells in the log are not modelled. A column with no text at all, on which `.str` itself raises, is not modelled either.
- `datetime.now()` is left out; timestamps come from the oracle.
- `app/config.py` (directory creation, default settings) is not part of this model. The results path is implicit in `ResultStore`.
- An I/O failure of `init_results_file` is left out: it propagates out of `run_message_campaign` after the `finally` (app/main.py:191-193); in `_execute_task` the catch-all at app/modules/scheduler.py:104-105 swallows it.
- An unreadable results file is not modelled: `ResultsFile` has no case for it. In the code `load_sent_profiles` and `get_results_df` catch every read error (app/modules/file_Io.py:39-41, 75-77) and return the empty set and the empty table, which is what the model gives only for an absent or empty file. After such a read error the next run's snapshot is empty and earlier recipients are messaged again; the model does not show that path.
- The `if not profiles` branch of `_execute_task` is left out because it is unreachable: `load_profiles` raises instead of returning an empty list.
- Python's `str.isspace` is written out as a fixed set of code points in `Text.IsWhitespace`; it is not derived from the Unicode database.
- LoggedSent: stated only for a log whose first record is the standard header and whose writes all succeed. A failed write is covered by `SuccessRowsCounted` instead.
- TaskLogRows: the one-row-per-attempt form is stated only for oracles whose writes all succeed, and only for a file that is absent or has a header record.
- CampaignLogAgrees: stated only for a results file that is absent or starts with the standard header, and for writes that all succeed. For an existing empty file the session's set and what the log reads back differ; `EmptyLogNeverSent` states what the log then gives.
