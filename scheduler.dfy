/**
 * The task scheduler (app/modules/scheduler.py): a list of tasks, each a
 * time of day and its campaign configuration, a `running` flag, and a
 * polling worker that runs every task due at the current minute.
 *
 * The worker thread, its sleeps and the clock are outside the model: one
 * poll is given the current "HH:MM" text, and the k-th task run in that poll
 * gets the oracle `oracles(k)` for its browser.
 */
module TaskScheduler {
  import opened Wrappers
  import opened Seqs
  import opened FileIo
  import opened Campaign
  import opened Messaging

  /** `message_delay`: the range of the random pause after each attempt. */
  datatype DelayRange = DelayRange(low: int, high: int)

  /**
   * A task dictionary: its `time`, and each key that `_execute_task` looks
   * up, `None` when the dictionary lacks it.
   */
  datatype Task = Task(time: string, file: Option<Sheet>, username: Option<string>, password: Option<string>,
                       message: Option<string>, maxMessages: Option<int>, messageDelay: Option<DelayRange>)

  /** An exception caught by the catch-all of `_execute_task`. */
  datatype TaskError = KeyMissing(key: string) | ProfilesFailed(error: LoadError)

  datatype TaskEnd = Raised(error: TaskError) | LoginFailed | Completed(exit: Exit)

  /**
   * What running a task did: how it ended, the results file afterwards, the
   * attempts it logged, and whether it got as far as `init_results_file`.
   */
  datatype TaskRun = TaskRun(end: TaskEnd, file: ResultsFile, attempts: seq<Attempt>, initialized: bool)

  function TaskMessage(task: Task): string
  {
    if task.message.Some? then task.message.value else ""
  }

  /** The loop `_execute_task` runs once logged in, from the sent set read from `f1`. */
  function TaskLoop(profiles: seq<string>, f1: ResultsFile, maxMessages: int, o: Oracle): Progress
  {
    Run(profiles, LoadSentProfiles(f1), maxMessages, o.sendOk, NeverStop)
  }

  /** `_execute_task` from the moment `init_results_file` has produced `f1`. */
  function AfterInit(task: Task, profiles: seq<string>, f1: ResultsFile, o: Oracle): (r: TaskRun)
    ensures r.initialized && r.file == Logged(f1, r.attempts, TaskMessage(task), o)
    ensures r.attempts != [] ==>
      && task.maxMessages.Some? && task.message.Some?
      && r.attempts <= TaskLoop(profiles, f1, task.maxMessages.value, o).attempts
  {
    if task.maxMessages.None? then TaskRun(Raised(KeyMissing("max_messages")), f1, [], true)
    else
      var r := TaskLoop(profiles, f1, task.maxMessages.value, o);
      if r.attempts != [] && task.message.None? then
        TaskRun(Raised(KeyMissing("message")), f1, [], true)
      else if r.attempts != [] && task.messageDelay.None? then
        TaskRun(Raised(KeyMissing("message_delay")), Logged(f1, r.attempts[..1], TaskMessage(task), o), r.attempts[..1], true)
      else
        TaskRun(Completed(r.exit), Logged(f1, r.attempts, TaskMessage(task), o), r.attempts, true)
  }

  /** The loop stopped at the limit or at the end of the list: the task completes with what it logged. */
  lemma AfterInitDone(task: Task, profiles: seq<string>, f1: ResultsFile, o: Oracle,
                      i: nat, sent: set<string>, count: int, attempts: seq<Attempt>)
    requires task.maxMessages.Some? && i <= |profiles|
    requires TaskLoop(profiles, f1, task.maxMessages.value, o) ==
      Loop(profiles, task.maxMessages.value, o.sendOk, NeverStop, i, sent, count, attempts)
    requires task.message.None? || task.messageDelay.None? ==> attempts == []
    requires i == |profiles| || count >= task.maxMessages.value
    ensures AfterInit(task, profiles, f1, o) ==
      TaskRun(Completed(if i == |profiles| then Exhausted else LimitReached), Logged(f1, attempts, TaskMessage(task), o),
              attempts, true)
  {
  }

  /** The loop reached its first send without a `message` key: nothing is logged. */
  lemma AfterInitNoMessage(task: Task, profiles: seq<string>, f1: ResultsFile, o: Oracle,
                           i: nat, sent: set<string>, count: int)
    requires task.maxMessages.Some? && task.message.None? && i < |profiles|
    requires TaskLoop(profiles, f1, task.maxMessages.value, o) ==
      Loop(profiles, task.maxMessages.value, o.sendOk, NeverStop, i, sent, count, [])
    requires count < task.maxMessages.value && profiles[i] !in sent
    ensures AfterInit(task, profiles, f1, o) == TaskRun(Raised(KeyMissing("message")), f1, [], true)
  {
    var ok := o.sendOk(0);
    assert [] + [Attempt(i, profiles[i], ok)] == [Attempt(i, profiles[i], ok)];
    assert TaskLoop(profiles, f1, task.maxMessages.value, o) ==
      Loop(profiles, task.maxMessages.value, o.sendOk, NeverStop, i + 1,
           if ok then sent + {profiles[i]} else sent, if ok then count + 1 else count, [Attempt(i, profiles[i], ok)]);
    LoopExtends(profiles, task.maxMessages.value, o.sendOk, NeverStop, i + 1,
                if ok then sent + {profiles[i]} else sent, if ok then count + 1 else count, [Attempt(i, profiles[i], ok)]);
  }

  /** The first send was recorded and `message_delay` is missing: the task raises after one attempt. */
  lemma AfterInitNoDelay(task: Task, profiles: seq<string>, f1: ResultsFile, o: Oracle,
                         i: nat, sent: set<string>, count: int, a: Attempt)
    requires task.maxMessages.Some? && task.message.Some? && task.messageDelay.None? && i <= |profiles|
    requires TaskLoop(profiles, f1, task.maxMessages.value, o) ==
      Loop(profiles, task.maxMessages.value, o.sendOk, NeverStop, i, sent, count, [a])
    ensures AfterInit(task, profiles, f1, o) ==
      TaskRun(Raised(KeyMissing("message_delay")), Logged(f1, [a], TaskMessage(task), o), [a], true)
  {
    LoopExtends(profiles, task.maxMessages.value, o.sendOk, NeverStop, i, sent, count, [a]);
    var full := TaskLoop(profiles, f1, task.maxMessages.value, o);
    assert full.attempts[..1] == [a];
  }

  /**
   * `_execute_task` on the results file `f`. Profiles are loaded first, then
   * the browser logs in; only then is the results file initialised and the
   * sent set read. A missing key raises where it is first looked up: `file`
   * before anything, `username` and `password` at login, `max_messages` at
   * the first iteration, `message` at the first send, `message_delay` after
   * the first send is recorded.
   */
  function ExecuteTaskSpec(task: Task, f: ResultsFile, o: Oracle): (r: TaskRun)
    ensures task.file.None? ==> r == TaskRun(Raised(KeyMissing("file")), f, [], false)
    ensures !r.initialized ==> r.file == f && r.attempts == []
    ensures r.initialized ==> r.file == Logged(InitFile(f), r.attempts, TaskMessage(task), o)
    ensures r.initialized <==>
      task.file.Some? && LoadProfiles(task.file.value).Ok? && task.username.Some? && task.password.Some? && o.loginOk
    ensures r.end == LoginFailed <==>
      task.file.Some? && LoadProfiles(task.file.value).Ok? && task.username.Some? && task.password.Some? && !o.loginOk
    ensures r.attempts != [] ==>
      && task.maxMessages.Some? && task.message.Some?
      && r.attempts <= TaskLoop(LoadProfiles(task.file.value).value, InitFile(f), task.maxMessages.value, o).attempts
  {
    if task.file.None? then TaskRun(Raised(KeyMissing("file")), f, [], false)
    else
      var loaded := LoadProfiles(task.file.value);
      if loaded.Err? then TaskRun(Raised(ProfilesFailed(loaded.error)), f, [], false)
      else if task.username.None? then TaskRun(Raised(KeyMissing("username")), f, [], false)
      else if task.password.None? then TaskRun(Raised(KeyMissing("password")), f, [], false)
      else if !o.loginOk then TaskRun(LoginFailed, f, [], false)
      else AfterInit(task, loaded.value, InitFile(f), o)
  }

  /** The tasks whose time equals `now`, in list order. */
  function Due(tasks: seq<Task>, now: string): seq<Task>
  {
    if tasks == [] then []
    else if tasks[0].time == now then [tasks[0]] + Due(tasks[1..], now)
    else Due(tasks[1..], now)
  }

  /** Every due task is due at `now`. */
  lemma {:induction false} DueAtNow(tasks: seq<Task>, now: string)
    ensures forall k :: 0 <= k < |Due(tasks, now)| ==> Due(tasks, now)[k].time == now
  {
    if tasks != [] {
      DueAtNow(tasks[1..], now);
    }
  }

  /** The due tasks keep their order in the list. */
  lemma {:induction false} DueInOrder(tasks: seq<Task>, now: string)
    ensures Subseq(Due(tasks, now), tasks)
  {
    if tasks != [] {
      DueInOrder(tasks[1..], now);
    }
  }

  /** A task due at `now` is run as often as it occurs in the list. */
  lemma {:induction false} DueCount(tasks: seq<Task>, now: string, t: Task)
    requires t.time == now
    ensures multiset(Due(tasks, now))[t] == multiset(tasks)[t]
  {
    if tasks != [] {
      DueCount(tasks[1..], now, t);
      assert tasks == [tasks[0]] + tasks[1..];
    }
  }

  /** The results file after running `ran` in order, the k-th with `oracles(k)`. */
  function RunAll(f: ResultsFile, ran: seq<Task>, oracles: nat -> Oracle): ResultsFile
    decreases |ran|
  {
    if ran == [] then f
    else
      var n := |ran| - 1;
      ExecuteTaskSpec(ran[n], RunAll(f, ran[..n], oracles), oracles(n)).file
  }

  /** Running one more task runs it on the file the earlier ones left. */
  lemma RunAllStep(f: ResultsFile, ran: seq<Task>, t: Task, oracles: nat -> Oracle)
    ensures RunAll(f, ran + [t], oracles) == ExecuteTaskSpec(t, RunAll(f, ran, oracles), oracles(|ran|)).file
  {
    assert (ran + [t])[..|ran|] == ran;
  }

  /** `Due` taken one task at a time from the front. */
  lemma DueStep(tasks: seq<Task>, i: nat, now: string)
    requires i < |tasks|
    ensures Due(tasks[i..], now) == (if tasks[i].time == now then [tasks[i]] else []) + Due(tasks[i + 1..], now)
  {
    assert tasks[i..][1..] == tasks[i + 1..];
  }

  /**
   * A task lacking `file`, `username`, `password`, `max_messages` or
   * `message` sends nothing and adds no row beyond the header that
   * `init_results_file` may write; one lacking `message_delay` gets no
   * further than its first attempt.
   */
  lemma TaskMissingKeys(task: Task, f: ResultsFile, o: Oracle)
    ensures var r := ExecuteTaskSpec(task, f, o);
      (task.file.None? || task.username.None? || task.password.None? || task.maxMessages.None? || task.message.None?) ==>
        r.attempts == [] && (r.file == f || r.file == InitFile(f))
    ensures var r := ExecuteTaskSpec(task, f, o); task.messageDelay.None? ==> |r.attempts| <= 1
  {
    var r := ExecuteTaskSpec(task, f, o);
    if r.initialized && r.attempts == [] {
      assert r.file == Logged(InitFile(f), [], TaskMessage(task), o);
    }
  }

  /** A task never logs more `Success` rows than its `max_messages`. */
  lemma TaskWithinLimit(task: Task, f: ResultsFile, o: Oracle)
    requires task.maxMessages.Some? && task.maxMessages.value >= 0
    ensures var r := ExecuteTaskSpec(task, f, o);
      CountSuccessRows(LoggedRows(r.attempts, TaskMessage(task), o)) <= task.maxMessages.value
  {
    var r := ExecuteTaskSpec(task, f, o);
    SuccessRowsCounted(r.attempts, TaskMessage(task), o);
    if r.attempts != [] {
      RunPrefix(LoadProfiles(task.file.value).value, LoadSentProfiles(InitFile(f)), task.maxMessages.value,
                o.sendOk, NeverStop, r.attempts);
    }
  }

  /**
   * A task never attempts a profile of the sent set it read at its start,
   * nor one it already sent successfully, and attempts profiles in list order.
   */
  lemma TaskNoResend(task: Task, f: ResultsFile, o: Oracle)
    ensures var r := ExecuteTaskSpec(task, f, o);
      && (forall k :: 0 <= k < |r.attempts| ==> r.attempts[k].profile !in LoadSentProfiles(InitFile(f)))
      && (forall j, k :: 0 <= j < k < |r.attempts| && r.attempts[j].success ==> r.attempts[k].profile != r.attempts[j].profile)
      && (forall j, k :: 0 <= j < k < |r.attempts| ==> r.attempts[j].index < r.attempts[k].index)
  {
    var r := ExecuteTaskSpec(task, f, o);
    if r.attempts != [] {
      RunPrefix(LoadProfiles(task.file.value).value, LoadSentProfiles(InitFile(f)), task.maxMessages.value,
                o.sendOk, NeverStop, r.attempts);
    }
  }

  /**
   * A task that reached the log keeps the earlier records and adds the rows
   * of its attempts after them; with every write succeeding, that is one row
   * per attempt, in attempt order.
   */
  lemma TaskLogRows(task: Task, f: ResultsFile, o: Oracle)
    requires f.Absent? || f.lines != []
    ensures var r := ExecuteTaskSpec(task, f, o); var before := GetResults(InitFile(f));
      r.initialized ==> GetResults(r.file) == Table(before.columns, before.rows + LoggedRows(r.attempts, TaskMessage(task), o))
    ensures var r := ExecuteTaskSpec(task, f, o); var rows := LoggedRows(r.attempts, TaskMessage(task), o);
      (forall k :: o.writeOk(k)) ==>
        |rows| == |r.attempts| && forall k :: 0 <= k < |r.attempts| ==> rows[k] == AttemptRow(r.attempts[k], TaskMessage(task), o.stamp(k))
  {
    var r := ExecuteTaskSpec(task, f, o);
    if r.initialized {
      GetAfterAppendAll(InitFile(f), LoggedRows(r.attempts, TaskMessage(task), o));
    }
    if forall k :: o.writeOk(k) {
      AllWritesLogged(r.attempts, TaskMessage(task), o);
    }
  }

  class Scheduler {
    var running: bool
    var tasks: seq<Task>
    /** Whether `self.thread` has been set. */
    var hasThread: bool

    constructor ()
      ensures !running && tasks == [] && !hasThread
    {
      running := false;
      tasks := [];
      hasThread := false;
    }

    /** `add_task`. */
    method AddTask(task: Task)
      modifies this
      ensures tasks == old(tasks) + [task]
      ensures running == old(running) && hasThread == old(hasThread)
    {
      tasks := tasks + [task];
    }

    /** `remove_task`: pop at a valid index; any other index is ignored. */
    method RemoveTask(index: int)
      modifies this
      ensures 0 <= index < |old(tasks)| ==> tasks == old(tasks)[..index] + old(tasks)[index + 1..]
      ensures !(0 <= index < |old(tasks)|) ==> tasks == old(tasks)
      ensures running == old(running) && hasThread == old(hasThread)
    {
      if 0 <= index < |tasks| {
        tasks := tasks[..index] + tasks[index + 1..];
      }
    }

    /** `start`: only when not yet running does it set the flag and start a worker. */
    method Start()
      modifies this
      ensures old(running) ==> running && hasThread == old(hasThread)
      ensures !old(running) ==> running && hasThread
      ensures tasks == old(tasks)
    {
      if !running {
        running := true;
        hasThread := true;
      }
    }

    /** `stop`: clear the flag (the join of the worker is outside the model). */
    method Stop()
      modifies this
      ensures !running
      ensures tasks == old(tasks) && hasThread == old(hasThread)
    {
      running := false;
    }

    /** The part of `_execute_task` inside its inner `try`, which the caller follows with `close`. */
    method RunSession(task: Task, profiles: seq<string>, store: ResultStore, o: Oracle, browser: Browser)
      returns (end: TaskEnd)
      requires task.file.Some? && LoadProfiles(task.file.value) == Ok(profiles)
      requires !browser.loggedIn && browser.closeCount == 0
      modifies store, browser
      ensures var r := ExecuteTaskSpec(task, old(store.file), o); end == r.end && store.file == r.file
      ensures browser.closeCount == 0
    {
      ghost var f := store.file;
      if task.username.None? {
        return Raised(KeyMissing("username"));
      }
      if task.password.None? {
        return Raised(KeyMissing("password"));
      }
      var loggedIn := browser.Login(o.loginOk);
      if !loggedIn {
        return LoginFailed;
      }
      store.InitResultsFile();
      end := SendLoop(task, profiles, store, o, browser);
    }

    /** The `for` loop of `_execute_task`, with the sent set read just before it. */
    method SendLoop(task: Task, profiles: seq<string>, store: ResultStore, o: Oracle, browser: Browser)
      returns (end: TaskEnd)
      requires |profiles| > 0
      requires browser.loggedIn && browser.closeCount == 0
      modifies store
      ensures var r := AfterInit(task, profiles, old(store.file), o); end == r.end && store.file == r.file
    {
      ghost var f1 := store.file;
      var sentProfiles := LoadSentProfiles(store.file);
      var messagesSent := 0;
      ghost var attempts: seq<Attempt> := [];
      var i, k := 0, 0;
      var raised: Option<TaskError> := None;
      while i < |profiles|
        invariant 0 <= i <= |profiles| && k == |attempts| <= i
        invariant task.maxMessages.None? ==> i == 0
        invariant task.maxMessages.Some? ==>
          TaskLoop(profiles, f1, task.maxMessages.value, o) == Loop(profiles, task.maxMessages.value, o.sendOk, NeverStop, i, sentProfiles, messagesSent, attempts)
        invariant task.message.None? || task.messageDelay.None? ==> attempts == []
        invariant store.file == Logged(f1, attempts, TaskMessage(task), o)
        invariant raised.None?
        decreases |profiles| - i
      {
        if task.maxMessages.None? {
          raised := Some(KeyMissing("max_messages"));
          break;
        }
        if messagesSent >= task.maxMessages.value {
          break;
        }
        var profile := profiles[i];
        if profile !in sentProfiles {
          if task.message.None? {
            raised := Some(KeyMissing("message"));
            break;
          }
          var success := SendAndRecord(profile, i, task.message.value, k, store, o, browser, f1, attempts);
          if success {
            messagesSent := messagesSent + 1;
            sentProfiles := sentProfiles + {profile};
          }
          attempts := attempts + [Attempt(i, profile, success)];
          k := k + 1;
          if task.messageDelay.None? {
            i := i + 1;
            raised := Some(KeyMissing("message_delay"));
            break;
          }
        }
        i := i + 1;
      }
      if raised == Some(KeyMissing("max_messages")) {
        assert Logged(f1, [], TaskMessage(task), o) == f1;
        end := Raised(KeyMissing("max_messages"));
      } else if raised == Some(KeyMissing("message")) {
        AfterInitNoMessage(task, profiles, f1, o, i, sentProfiles, messagesSent);
        assert Logged(f1, [], TaskMessage(task), o) == f1;
        end := Raised(KeyMissing("message"));
      } else if raised.Some? {
        AfterInitNoDelay(task, profiles, f1, o, i, sentProfiles, messagesSent, attempts[0]);
        assert attempts == [attempts[0]];
        end := Raised(KeyMissing("message_delay"));
      } else {
        AfterInitDone(task, profiles, f1, o, i, sentProfiles, messagesSent, attempts);
        end := Completed(if i == |profiles| then Exhausted else LimitReached);
      }
    }

    /** `_execute_task`; the browser, when one was opened, is closed exactly once. */
    method ExecuteTask(task: Task, store: ResultStore, o: Oracle) returns (end: TaskEnd, browser: Browser?)
      modifies store
      ensures var r := ExecuteTaskSpec(task, old(store.file), o); end == r.end && store.file == r.file
      ensures browser != null <==> task.file.Some? && LoadProfiles(task.file.value).Ok?
      ensures browser != null ==> fresh(browser) && browser.closeCount == 1
    {
      browser := null;
      if task.file.None? {
        return Raised(KeyMissing("file")), null;
      }
      var loaded := LoadProfiles(task.file.value);
      if loaded.Err? {
        return Raised(ProfilesFailed(loaded.error)), null;
      }
      var b := new Browser();
      end := RunSession(task, loaded.value, store, o, b);
      b.Close();
      browser := b;
    }

    /**
     * One pass of `_run_scheduler`'s loop: when running, every task due at
     * `now` is executed, in list order; the task list is left as it was.
     */
    method Poll(now: string, store: ResultStore, oracles: nat -> Oracle) returns (ran: seq<Task>)
      modifies store
      ensures !running ==> ran == [] && store.file == old(store.file)
      ensures running ==> ran == Due(tasks, now) && store.file == RunAll(old(store.file), ran, oracles)
    {
      ran := [];
      if !running {
        return;
      }
      ghost var f := store.file;
      var i := 0;
      while i < |tasks|
        invariant 0 <= i <= |tasks|
        invariant Due(tasks, now) == ran + Due(tasks[i..], now)
        invariant store.file == RunAll(f, ran, oracles)
      {
        DueStep(tasks, i, now);
        var task := tasks[i];
        if task.time == now {
          RunAllStep(f, ran, task, oracles);
          var _, _ := ExecuteTask(task, store, oracles(|ran|));
          ran := ran + [task];
        }
        i := i + 1;
      }
    }
  }
}
