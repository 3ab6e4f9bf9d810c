/**
 * The dashboard's own logic (app/main.py): the checks made when the
 * configuration form is submitted, the foreground campaign over the loaded
 * profiles, and the schedule list that the scheduler tab keeps in step with
 * the scheduler's own.
 *
 * Streamlit's session state is the object `SessionState`. The campaign is
 * started on a worker thread in the source; here the caller runs
 * `RunMessageCampaign` after a `Started` submission. The stop button of the
 * results view is `stopAt(i)`: it has been pressed by the time the loop
 * reaches profile i.
 */
module App {
  import opened Wrappers
  import opened FileIo
  import opened Campaign
  import opened Messaging
  import opened TaskScheduler

  /** The `config` dictionary built from the form. */
  datatype Config = Config(username: string, password: string, message: string, maxMessages: int,
                           timeInterval: int, cooldownMin: int, cooldownMax: int, messageDelay: DelayRange)

  /** The fixed `message_delay` of a campaign started from the form, in seconds. */
  const FormDelay := DelayRange(10, 30)

  /** How a form submission ended: one of the three error messages, or a campaign started. */
  datatype Submission =
    | MissingFields
    | MissingFile
    | LoadFailed(message: string)
    | Started(profiles: seq<string>, config: Config)

  /**
   * `handle_config_submission`: the three text fields must be non-empty,
   * then a file must have been uploaded, then the profiles must load; the
   * load error reaches the user behind `"Error: "`.
   */
  function Submit(username: string, password: string, message: string, maxMessages: int, timeInterval: int,
                  cooldownMin: int, cooldownMax: int, upload: Option<Sheet>): (r: Submission)
    ensures r.MissingFields? <==> username == "" || password == "" || message == ""
    ensures r.MissingFile? <==> username != "" && password != "" && message != "" && upload.None?
    ensures r.LoadFailed? <==>
      username != "" && password != "" && message != "" && upload.Some? && LoadProfiles(upload.value).Err?
    ensures r.LoadFailed? ==> r.message == "Error: " + LoadErrorText(LoadProfiles(upload.value).error)
    ensures r.Started? ==>
      && upload.Some? && LoadProfiles(upload.value) == Ok(r.profiles)
      && r.config.username == username && r.config.password == password && r.config.message == message
      && r.config.maxMessages == maxMessages && r.config.messageDelay == FormDelay
  {
    if username == "" || password == "" || message == "" then MissingFields
    else if upload.None? then MissingFile
    else
      var loaded := LoadProfiles(upload.value);
      if loaded.Err? then LoadFailed("Error: " + LoadErrorText(loaded.error))
      else Started(loaded.value, Config(username, password, message, maxMessages, timeInterval,
                                        cooldownMin, cooldownMax, FormDelay))
  }

  /** A started campaign's profiles are what a successful load promises. */
  lemma SubmitStarted(username: string, password: string, message: string, maxMessages: int, timeInterval: int,
                      cooldownMin: int, cooldownMax: int, upload: Option<Sheet>)
    ensures var r := Submit(username, password, message, maxMessages, timeInterval, cooldownMin, cooldownMax, upload);
      r.Started? ==> upload.Some? && ProfilesOfSheet(upload.value, r.profiles)
  {
    if upload.Some? && LoadProfiles(upload.value).Ok? {
      LoadedProfiles(upload.value);
    }
  }

  /** The task dictionary `{'time': ..., **config}` that the scheduler tab adds: it has no `file` key. */
  function ScheduledTask(time: string, config: Config): (t: Task)
    ensures t.time == time && t.file.None?
    ensures t.username == Some(config.username) && t.password == Some(config.password)
    ensures t.message == Some(config.message) && t.maxMessages == Some(config.maxMessages)
    ensures t.messageDelay == Some(config.messageDelay)
  {
    Task(time, None, Some(config.username), Some(config.password), Some(config.message),
         Some(config.maxMessages), Some(config.messageDelay))
  }

  /**
   * A task added from the scheduler tab stops at its missing `file` key:
   * it ends in the catch-all, logs in to nothing and leaves the results
   * file as it was.
   */
  lemma ScheduledTaskDoesNothing(time: string, config: Config, f: ResultsFile, o: Oracle)
    ensures ExecuteTaskSpec(ScheduledTask(time, config), f, o) == TaskRun(Raised(KeyMissing("file")), f, [], false)
  {
  }

  /** Any number of polls running only tasks from the scheduler tab leave the results file as it was. */
  lemma {:induction false} ScheduledTasksLeaveLog(f: ResultsFile, ran: seq<Task>, oracles: nat -> Oracle)
    requires forall k :: 0 <= k < |ran| ==> ran[k].file.None?
    ensures RunAll(f, ran, oracles) == f
    decreases |ran|
  {
    if ran != [] {
      var n := |ran| - 1;
      assert forall k :: 0 <= k < n ==> ran[..n][k] == ran[k];
      ScheduledTasksLeaveLog(f, ran[..n], oracles);
    }
  }

  /** How the foreground campaign ended: the login refused, or the loop left by one of its exits. */
  datatype CampaignEnd = LoginRejected | Finished(exit: Exit)

  /** The campaign's outcome: the results file, `sent_profiles`, `messages_sent` and the attempts made. */
  datatype CampaignRun = CampaignRun(end: CampaignEnd, file: ResultsFile, sent: set<string>, count: int,
                                     attempts: seq<Attempt>)

  /**
   * `run_message_campaign` on the results file `f`: the file is initialised
   * and the sent set read before the login, then the loop runs with the
   * stop flag.
   */
  function CampaignSpec(profiles: seq<string>, config: Config, f: ResultsFile, o: Oracle, stopAt: nat -> bool)
    : (r: CampaignRun)
    ensures r.file == Logged(InitFile(f), r.attempts, config.message, o)
    ensures r.end == LoginRejected <==> !o.loginOk
    ensures !o.loginOk ==> r.attempts == [] && r.count == 0 && r.file == InitFile(f)
    ensures r.count == NumSuccess(r.attempts) && (config.maxMessages >= 0 ==> r.count <= config.maxMessages)
    ensures r.sent == LoadSentProfiles(InitFile(f)) + SuccessSet(r.attempts)
  {
    var f1 := InitFile(f);
    var snapshot := LoadSentProfiles(f1);
    if !o.loginOk then CampaignRun(LoginRejected, f1, snapshot, 0, [])
    else
      var p := Run(profiles, snapshot, config.maxMessages, o.sendOk, stopAt);
      RunWithinLimit(profiles, snapshot, config.maxMessages, o.sendOk, stopAt);
      RunSentSet(profiles, snapshot, config.maxMessages, o.sendOk, stopAt);
      CampaignRun(Finished(p.exit), Logged(f1, p.attempts, config.message, o), p.sent, p.count, p.attempts)
  }

  /**
   * The campaign never attempts a profile of the sent set read at its
   * start, nor one it already sent successfully; it goes through the list
   * in order, and makes no attempt at or after a profile where the stop
   * flag was seen.
   */
  lemma CampaignNoResend(profiles: seq<string>, config: Config, f: ResultsFile, o: Oracle, stopAt: nat -> bool)
    ensures var r := CampaignSpec(profiles, config, f, o, stopAt);
      && (forall k :: 0 <= k < |r.attempts| ==> r.attempts[k].profile !in LoadSentProfiles(InitFile(f)))
      && (forall j, k :: 0 <= j < k < |r.attempts| && r.attempts[j].success ==> r.attempts[k].profile != r.attempts[j].profile)
      && (forall j, k :: 0 <= j < k < |r.attempts| ==> r.attempts[j].index < r.attempts[k].index)
      && (forall j, k :: 0 <= k < |r.attempts| && stopAt(j) ==> r.attempts[k].index < j)
  {
    if o.loginOk {
      var snapshot := LoadSentProfiles(InitFile(f));
      RunNoResend(profiles, snapshot, config.maxMessages, o.sendOk, stopAt);
      RunInOrder(profiles, snapshot, config.maxMessages, o.sendOk, stopAt);
    }
  }

  /**
   * When every write succeeds and the log has the standard header, the
   * session's `sent_profiles` at the end is what reading the log gives.
   */
  lemma CampaignLogAgrees(profiles: seq<string>, config: Config, f: ResultsFile, o: Oracle, stopAt: nat -> bool)
    requires f.Absent? || (f.Present? && f.lines != [] && f.lines[0] == Header)
    requires forall k :: o.writeOk(k)
    ensures var r := CampaignSpec(profiles, config, f, o, stopAt);
      LoadSentProfiles(r.file) == r.sent
  {
    var r := CampaignSpec(profiles, config, f, o, stopAt);
    LoggedSent(InitFile(f), r.attempts, config.message, o);
  }

  /**
   * The log never gains more `Success` rows than `messages_sent` counts; as
   * many when no write fails.
   */
  lemma CampaignSuccessRows(profiles: seq<string>, config: Config, f: ResultsFile, o: Oracle, stopAt: nat -> bool)
    ensures var r := CampaignSpec(profiles, config, f, o, stopAt);
      && CountSuccessRows(LoggedRows(r.attempts, config.message, o)) <= r.count
      && ((forall k :: o.writeOk(k)) ==> CountSuccessRows(LoggedRows(r.attempts, config.message, o)) == r.count)
  {
    var r := CampaignSpec(profiles, config, f, o, stopAt);
    SuccessRowsCounted(r.attempts, config.message, o);
  }

  /** A campaign that went through the whole list left no profile both unsent and unattempted. */
  lemma CampaignCovers(profiles: seq<string>, config: Config, f: ResultsFile, o: Oracle, stopAt: nat -> bool)
    ensures var r := CampaignSpec(profiles, config, f, o, stopAt);
      r.end == Finished(Exhausted) ==> forall j :: 0 <= j < |profiles| ==> profiles[j] in r.sent || Attempted(r.attempts, j)
  {
    if o.loginOk {
      RunCovers(profiles, LoadSentProfiles(InitFile(f)), config.maxMessages, o.sendOk, stopAt);
    }
  }

  /** `st.session_state`, as `init_session_state` first fills it, plus the keys the form sets. */
  class SessionState {
    var sentProfiles: set<string>
    var messagesSent: int
    var scheduledTasks: seq<Task>
    var running: bool
    var scheduler: Scheduler
    var config: Option<Config>
    var profiles: Option<seq<string>>

    constructor ()
      ensures sentProfiles == {} && messagesSent == 0 && scheduledTasks == [] && !running
      ensures fresh(scheduler) && scheduler.tasks == [] && !scheduler.running
      ensures config.None? && profiles.None?
    {
      sentProfiles := {};
      messagesSent := 0;
      scheduledTasks := [];
      running := false;
      scheduler := new Scheduler();
      config := None;
      profiles := None;
    }

    /** Store the loaded profiles and the configuration, as a successful submission does. */
    method Configure(loaded: seq<string>, settings: Config)
      modifies this
      ensures profiles == Some(loaded) && config == Some(settings)
      ensures sentProfiles == old(sentProfiles) && messagesSent == old(messagesSent)
      ensures scheduledTasks == old(scheduledTasks) && running == old(running) && scheduler == old(scheduler)
    {
      profiles := Some(loaded);
      config := Some(settings);
    }

    /** A successful send: one more message sent, and the profile joins the sent set. */
    method MarkSent(profile: string)
      modifies this
      ensures messagesSent == old(messagesSent) + 1 && sentProfiles == old(sentProfiles) + {profile}
      ensures scheduledTasks == old(scheduledTasks) && running == old(running) && scheduler == old(scheduler)
      ensures config == old(config) && profiles == old(profiles)
    {
      messagesSent := messagesSent + 1;
      sentProfiles := sentProfiles + {profile};
    }

    /** The stop button: clear the `running` flag. */
    method Halt()
      modifies this
      ensures !running
      ensures messagesSent == old(messagesSent) && sentProfiles == old(sentProfiles)
      ensures scheduledTasks == old(scheduledTasks) && scheduler == old(scheduler)
      ensures config == old(config) && profiles == old(profiles)
    {
      running := false;
    }

    /** The schedule list shown in the scheduler tab is the scheduler's task list. */
    predicate InStep()
      reads this, scheduler
    {
      scheduler.tasks == scheduledTasks
    }
  }

  /** The form handler: on success the profiles and the configuration are stored in the session. */
  method HandleConfigSubmission(session: SessionState, username: string, password: string, message: string,
                                maxMessages: int, timeInterval: int, cooldownMin: int, cooldownMax: int,
                                upload: Option<Sheet>)
    returns (r: Submission)
    modifies session
    ensures r == Submit(username, password, message, maxMessages, timeInterval, cooldownMin, cooldownMax, upload)
    ensures r.Started? ==> session.profiles == Some(r.profiles) && session.config == Some(r.config)
    ensures !r.Started? ==> session.profiles == old(session.profiles) && session.config == old(session.config)
    ensures session.sentProfiles == old(session.sentProfiles) && session.messagesSent == old(session.messagesSent)
    ensures session.scheduledTasks == old(session.scheduledTasks) && session.running == old(session.running)
    ensures session.scheduler == old(session.scheduler)
  {
    r := Submit(username, password, message, maxMessages, timeInterval, cooldownMin, cooldownMax, upload);
    if r.Started? {
      session.Configure(r.profiles, r.config);
    }
  }

  /**
   * "Add Schedule": without a stored configuration nothing is added;
   * otherwise the same task joins both lists, which stay in step.
   */
  method AddSchedule(session: SessionState, time: string) returns (added: bool)
    modifies session, session.scheduler
    ensures added <==> old(session.config).Some?
    ensures added ==> session.config.Some? && session.scheduledTasks == old(session.scheduledTasks) + [ScheduledTask(time, session.config.value)]
    ensures !added ==> session.scheduledTasks == old(session.scheduledTasks)
    ensures added ==> session.scheduler.tasks == old(session.scheduler.tasks) + [ScheduledTask(time, session.config.value)]
    ensures !added ==> session.scheduler.tasks == old(session.scheduler.tasks)
    ensures old(session.InStep()) ==> session.InStep()
    ensures session.scheduler == old(session.scheduler) && session.config == old(session.config)
    ensures session.scheduler.running == old(session.scheduler.running)
    ensures session.scheduler.hasThread == old(session.scheduler.hasThread)
    ensures session.sentProfiles == old(session.sentProfiles) && session.messagesSent == old(session.messagesSent)
    ensures session.running == old(session.running) && session.profiles == old(session.profiles)
  {
    if session.config.None? {
      return false;
    }
    var task := ScheduledTask(time, session.config.value);
    session.scheduler.AddTask(task);
    session.scheduledTasks := session.scheduledTasks + [task];
    added := true;
  }

  /** "Remove Schedule i", offered for each shown schedule: both lists lose element i and stay in step. */
  method RemoveSchedule(session: SessionState, i: int)
    requires 0 <= i < |session.scheduledTasks|
    modifies session, session.scheduler
    ensures session.scheduledTasks == old(session.scheduledTasks)[..i] + old(session.scheduledTasks)[i + 1..]
    ensures i < |old(session.scheduler.tasks)| ==>
      session.scheduler.tasks == old(session.scheduler.tasks)[..i] + old(session.scheduler.tasks)[i + 1..]
    ensures i >= |old(session.scheduler.tasks)| ==> session.scheduler.tasks == old(session.scheduler.tasks)
    ensures old(session.InStep()) ==> session.InStep()
    ensures session.scheduler == old(session.scheduler) && session.config == old(session.config)
    ensures session.scheduler.running == old(session.scheduler.running)
    ensures session.scheduler.hasThread == old(session.scheduler.hasThread)
    ensures session.sentProfiles == old(session.sentProfiles) && session.messagesSent == old(session.messagesSent)
    ensures session.running == old(session.running) && session.profiles == old(session.profiles)
  {
    session.scheduler.RemoveTask(i);
    session.scheduledTasks := session.scheduledTasks[..i] + session.scheduledTasks[i + 1..];
  }

  /**
   * `run_message_campaign`. The browser is opened first and, on every
   * path, closed once at the end with `running` cleared.
   */
  method RunMessageCampaign(profiles: seq<string>, config: Config, session: SessionState, store: ResultStore,
                            o: Oracle, stopAt: nat -> bool)
    returns (browser: Browser)
    modifies session, store
    ensures var r := CampaignSpec(profiles, config, old(store.file), o, stopAt);
      store.file == r.file && session.sentProfiles == r.sent && session.messagesSent == r.count
    ensures !session.running
    ensures fresh(browser) && browser.closeCount == 1 && !browser.loggedIn
    ensures session.scheduledTasks == old(session.scheduledTasks) && session.scheduler == old(session.scheduler)
    ensures session.config == old(session.config) && session.profiles == old(session.profiles)
  {
    browser := new Browser();
    store.InitResultsFile();
    session.sentProfiles := LoadSentProfiles(store.file);
    session.messagesSent := 0;
    session.running := true;
    var loggedIn := browser.Login(o.loginOk);
    if loggedIn {
      CampaignLoop(profiles, config, session, store, o, stopAt, browser);
    }
    browser.Close();
    session.running := false;
  }

  /** The `for` loop of `run_message_campaign`, from the sent set and the zero count of the session. */
  method CampaignLoop(profiles: seq<string>, config: Config, session: SessionState, store: ResultStore,
                      o: Oracle, stopAt: nat -> bool, browser: Browser)
    requires session.running && session.messagesSent == 0
    requires browser.loggedIn && browser.closeCount == 0
    modifies session, store
    ensures var p := Run(profiles, old(session.sentProfiles), config.maxMessages, o.sendOk, stopAt);
      && session.sentProfiles == p.sent && session.messagesSent == p.count
      && store.file == Logged(old(store.file), p.attempts, config.message, o)
    ensures session.scheduledTasks == old(session.scheduledTasks) && session.scheduler == old(session.scheduler)
    ensures session.config == old(session.config) && session.profiles == old(session.profiles)
  {
    ghost var f1 := store.file;
    ghost var p := Run(profiles, session.sentProfiles, config.maxMessages, o.sendOk, stopAt);
    ghost var attempts: seq<Attempt> := [];
    var i, k := 0, 0;
    while i < |profiles|
      invariant 0 <= i <= |profiles| && k == |attempts|
      invariant session.running
      invariant p == Loop(profiles, config.maxMessages, o.sendOk, stopAt, i, session.sentProfiles, session.messagesSent, attempts)
      invariant store.file == Logged(f1, attempts, config.message, o)
      invariant session.scheduledTasks == old(session.scheduledTasks) && session.scheduler == old(session.scheduler)
      invariant session.config == old(session.config) && session.profiles == old(session.profiles)
      decreases |profiles| - i
    {
      if stopAt(i) {
        session.Halt();
      }
      if !session.running {
        break;
      }
      if session.messagesSent >= config.maxMessages {
        break;
      }
      var profile := profiles[i];
      if profile !in session.sentProfiles {
        var success := SendAndRecord(profile, i, config.message, k, store, o, browser, f1, attempts);
        if success {
          session.MarkSent(profile);
        }
        attempts := attempts + [Attempt(i, profile, success)];
        k := k + 1;
      }
      i := i + 1;
    }
  }
}
