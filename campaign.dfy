/**
 * The send loop that both the foreground campaign (app/main.py,
 * `run_message_campaign`) and a scheduled task (app/modules/scheduler.py,
 * `_execute_task`) run over a profile list, as a specification on values.
 *
 * The browser is replaced by an oracle: whether the login succeeds, and
 * the outcome of the k-th send, the k-th log write and the k-th timestamp.
 * The stop button of the results view is `stopAt(i)`: the `running` flag
 * has been cleared by the time the loop looks at profile i. A scheduled task
 * has no stop flag and passes `NeverStop`.
 */
module Campaign {
  import opened Wrappers
  import opened FileIo
  import opened Messaging

  datatype Oracle = Oracle(loginOk: bool, sendOk: nat -> bool, writeOk: nat -> bool, stamp: nat -> string)

  /** One call of `send_message`: the profile's position in the list, the profile, and the outcome. */
  datatype Attempt = Attempt(index: nat, profile: string, success: bool)

  /** How the loop ended: all profiles visited, the limit reached, or the stop flag seen. */
  datatype Exit = Exhausted | LimitReached | Stopped

  /** The loop's variables when it ends: the sent set, `messages_sent`, the attempts made. */
  datatype Progress = Progress(sent: set<string>, count: int, attempts: seq<Attempt>, exit: Exit)

  const FailureText := "Failed to send message"

  function NeverStop(i: nat): bool
  {
    false
  }

  function StatusText(success: bool): string
  {
    if success then "Success" else "Failed"
  }

  /** The `record_result` call made after an attempt. */
  function AttemptRow(a: Attempt, message: string, stamp: string): Record
  {
    MakeRow(a.profile, StatusText(a.success), message, stamp, Some(if a.success then "" else FailureText))
  }

  /** The number of successful attempts. */
  function NumSuccess(attempts: seq<Attempt>): nat
    decreases |attempts|
  {
    if attempts == [] then 0
    else NumSuccess(attempts[..|attempts| - 1]) + (if attempts[|attempts| - 1].success then 1 else 0)
  }

  /** The profiles of the successful attempts. */
  function SuccessSet(attempts: seq<Attempt>): set<string>
    decreases |attempts|
  {
    if attempts == [] then {}
    else
      var last := attempts[|attempts| - 1];
      SuccessSet(attempts[..|attempts| - 1]) + (if last.success then {last.profile} else {})
  }

  /**
   * The loop from profile `i` on, with `sent`, `count` and `attempts` as
   * the loop's state so far. Each iteration looks at the stop flag, then at
   * the limit, then skips a profile already in the sent set; otherwise it
   * sends, and a success counts and joins the sent set.
   */
  function Loop(profiles: seq<string>, maxMessages: int, sendOk: nat -> bool, stopAt: nat -> bool,
                i: nat, sent: set<string>, count: int, attempts: seq<Attempt>): Progress
    requires i <= |profiles|
    decreases |profiles| - i
  {
    if i == |profiles| then Progress(sent, count, attempts, Exhausted)
    else if stopAt(i) then Progress(sent, count, attempts, Stopped)
    else if count >= maxMessages then Progress(sent, count, attempts, LimitReached)
    else if profiles[i] in sent then Loop(profiles, maxMessages, sendOk, stopAt, i + 1, sent, count, attempts)
    else
      var ok := sendOk(|attempts|);
      Loop(profiles, maxMessages, sendOk, stopAt, i + 1,
           if ok then sent + {profiles[i]} else sent,
           if ok then count + 1 else count,
           attempts + [Attempt(i, profiles[i], ok)])
  }

  /** A whole loop, starting from the sent-set snapshot and `messages_sent = 0`. */
  function Run(profiles: seq<string>, snapshot: set<string>, maxMessages: int, sendOk: nat -> bool,
               stopAt: nat -> bool): Progress
  {
    Loop(profiles, maxMessages, sendOk, stopAt, 0, snapshot, 0, [])
  }

  /** The rows that reach the log: one per attempt whose write succeeds, in attempt order. */
  function LoggedRows(attempts: seq<Attempt>, message: string, o: Oracle): seq<Record>
    decreases |attempts|
  {
    if attempts == [] then []
    else
      var n := |attempts| - 1;
      LoggedRows(attempts[..n], message, o) + (if o.writeOk(n) then [AttemptRow(attempts[n], message, o.stamp(n))] else [])
  }

  /** The results file after the rows of `attempts` are recorded. */
  function Logged(f: ResultsFile, attempts: seq<Attempt>, message: string, o: Oracle): ResultsFile
  {
    AppendAll(f, LoggedRows(attempts, message, o))
  }

  /** Recording one more attempt: the k-th write appends its row, or leaves the file as it was. */
  lemma LoggedStep(f: ResultsFile, attempts: seq<Attempt>, a: Attempt, message: string, o: Oracle)
    ensures Logged(f, attempts + [a], message, o) ==
      if o.writeOk(|attempts|) then Append(Logged(f, attempts, message, o), AttemptRow(a, message, o.stamp(|attempts|)))
      else Logged(f, attempts, message, o)
  {
    var n := |attempts|;
    assert (attempts + [a])[..n] == attempts;
    var rows := LoggedRows(attempts, message, o);
    if o.writeOk(n) {
      var row := AttemptRow(a, message, o.stamp(n));
      assert (rows + [row])[..|rows|] == rows;
    } else {
      assert rows + [] == rows;
    }
  }

  /**
   * The loop body of both campaigns for a profile not yet sent: the k-th
   * `send_message`, then `record_result` with its status and error text.
   * The log grows by this attempt's row exactly as `Logged` says.
   */
  method SendAndRecord(profile: string, index: nat, message: string, k: nat, store: ResultStore, o: Oracle,
                       browser: Browser, ghost f1: ResultsFile, ghost attempts: seq<Attempt>)
    returns (success: bool)
    requires browser.loggedIn && browser.closeCount == 0
    requires k == |attempts| && store.file == Logged(f1, attempts, message, o)
    modifies store
    ensures success == o.sendOk(k)
    ensures store.file == Logged(f1, attempts + [Attempt(index, profile, success)], message, o)
  {
    success := browser.SendMessage(profile, message, o.sendOk(k));
    store.RecordResult(profile, StatusText(success), message, o.stamp(k),
                       Some(if success then "" else FailureText), o.writeOk(k));
    LoggedStep(f1, attempts, Attempt(index, profile, success), message, o);
  }

  // ---------------------------------------------------------------------
  // What the loop keeps
  // ---------------------------------------------------------------------

  /** Attempts follow the list: increasing positions, each naming the profile at its position. */
  ghost predicate InOrder(profiles: seq<string>, attempts: seq<Attempt>, bound: nat)
  {
    && (forall k :: 0 <= k < |attempts| ==>
          attempts[k].index < bound && attempts[k].index < |profiles| && profiles[attempts[k].index] == attempts[k].profile)
    && (forall j, k :: 0 <= j < k < |attempts| ==> attempts[j].index < attempts[k].index)
  }

  /** No attempt is made on a profile of the snapshot or on one already sent earlier in the run. */
  ghost predicate NoResend(snapshot: set<string>, attempts: seq<Attempt>)
  {
    forall k :: 0 <= k < |attempts| ==> attempts[k].profile !in snapshot + SuccessSet(attempts[..k])
  }

  ghost predicate Attempted(attempts: seq<Attempt>, i: nat)
  {
    exists k :: 0 <= k < |attempts| && attempts[k].index == i
  }

  lemma AppendAttempt(attempts: seq<Attempt>, a: Attempt)
    ensures (attempts + [a])[..|attempts|] == attempts
    ensures NumSuccess(attempts + [a]) == NumSuccess(attempts) + (if a.success then 1 else 0)
    ensures SuccessSet(attempts + [a]) == SuccessSet(attempts) + (if a.success then {a.profile} else {})
  {
    assert (attempts + [a])[..|attempts|] == attempts;
  }

  /*
   * Each lemma below follows `Loop` step by step from an arbitrary state
   * and shows that one part of the loop's state keeps its meaning.
   */

  /** The loop only adds attempts. */
  lemma {:induction false} LoopExtends(profiles: seq<string>, maxMessages: int, sendOk: nat -> bool, stopAt: nat -> bool,
                                       i: nat, sent: set<string>, count: int, attempts: seq<Attempt>)
    requires i <= |profiles|
    ensures attempts <= Loop(profiles, maxMessages, sendOk, stopAt, i, sent, count, attempts).attempts
    decreases |profiles| - i
  {
    if i == |profiles| || stopAt(i) || count >= maxMessages {
    } else if profiles[i] in sent {
      LoopExtends(profiles, maxMessages, sendOk, stopAt, i + 1, sent, count, attempts);
    } else {
      var ok := sendOk(|attempts|);
      LoopExtends(profiles, maxMessages, sendOk, stopAt, i + 1, if ok then sent + {profiles[i]} else sent,
                  if ok then count + 1 else count, attempts + [Attempt(i, profiles[i], ok)]);
    }
  }

  /** `messages_sent` is the number of successes, and stays within the limit. */
  lemma {:induction false} LoopCount(profiles: seq<string>, maxMessages: int, sendOk: nat -> bool, stopAt: nat -> bool,
                                     i: nat, sent: set<string>, count: int, attempts: seq<Attempt>)
    requires i <= |profiles|
    requires count == NumSuccess(attempts) && (count <= maxMessages || count == 0)
    ensures var r := Loop(profiles, maxMessages, sendOk, stopAt, i, sent, count, attempts);
      r.count == NumSuccess(r.attempts) && (r.count <= maxMessages || r.count == 0)
    ensures var r := Loop(profiles, maxMessages, sendOk, stopAt, i, sent, count, attempts);
      r.exit == LimitReached ==> r.count >= maxMessages
    decreases |profiles| - i
  {
    if i == |profiles| || stopAt(i) || count >= maxMessages {
    } else if profiles[i] in sent {
      LoopCount(profiles, maxMessages, sendOk, stopAt, i + 1, sent, count, attempts);
    } else {
      var ok := sendOk(|attempts|);
      AppendAttempt(attempts, Attempt(i, profiles[i], ok));
      LoopCount(profiles, maxMessages, sendOk, stopAt, i + 1, if ok then sent + {profiles[i]} else sent,
                if ok then count + 1 else count, attempts + [Attempt(i, profiles[i], ok)]);
    }
  }

  /** The sent set is the snapshot plus the profiles of the successful attempts. */
  lemma {:induction false} LoopSent(profiles: seq<string>, maxMessages: int, sendOk: nat -> bool, stopAt: nat -> bool,
                                    snapshot: set<string>, i: nat, sent: set<string>, count: int, attempts: seq<Attempt>)
    requires i <= |profiles|
    requires sent == snapshot + SuccessSet(attempts)
    ensures var r := Loop(profiles, maxMessages, sendOk, stopAt, i, sent, count, attempts);
      r.sent == snapshot + SuccessSet(r.attempts)
    decreases |profiles| - i
  {
    if i == |profiles| || stopAt(i) || count >= maxMessages {
    } else if profiles[i] in sent {
      LoopSent(profiles, maxMessages, sendOk, stopAt, snapshot, i + 1, sent, count, attempts);
    } else {
      var ok := sendOk(|attempts|);
      AppendAttempt(attempts, Attempt(i, profiles[i], ok));
      LoopSent(profiles, maxMessages, sendOk, stopAt, snapshot, i + 1, if ok then sent + {profiles[i]} else sent,
               if ok then count + 1 else count, attempts + [Attempt(i, profiles[i], ok)]);
    }
  }

  /** Adding an attempt on a profile outside the snapshot and the earlier successes keeps `NoResend`. */
  lemma NoResendStep(snapshot: set<string>, attempts: seq<Attempt>, a: Attempt)
    requires NoResend(snapshot, attempts)
    requires a.profile !in snapshot + SuccessSet(attempts)
    ensures NoResend(snapshot, attempts + [a])
  {
    var attempts' := attempts + [a];
    forall k | 0 <= k < |attempts'|
      ensures attempts'[k].profile !in snapshot + SuccessSet(attempts'[..k])
    {
      if k < |attempts| {
        assert attempts'[..k] == attempts[..k];
      } else {
        assert attempts'[..k] == attempts;
      }
    }
  }

  /** No attempt is made on the snapshot or on a profile already sent in the run. */
  lemma {:induction false} LoopNoResend(profiles: seq<string>, maxMessages: int, sendOk: nat -> bool, stopAt: nat -> bool,
                                        snapshot: set<string>, i: nat, sent: set<string>, count: int, attempts: seq<Attempt>)
    requires i <= |profiles|
    requires sent == snapshot + SuccessSet(attempts) && NoResend(snapshot, attempts)
    ensures NoResend(snapshot, Loop(profiles, maxMessages, sendOk, stopAt, i, sent, count, attempts).attempts)
    decreases |profiles| - i
  {
    if i == |profiles| || stopAt(i) || count >= maxMessages {
    } else if profiles[i] in sent {
      LoopNoResend(profiles, maxMessages, sendOk, stopAt, snapshot, i + 1, sent, count, attempts);
    } else {
      var ok := sendOk(|attempts|);
      var a := Attempt(i, profiles[i], ok);
      AppendAttempt(attempts, a);
      NoResendStep(snapshot, attempts, a);
      LoopNoResend(profiles, maxMessages, sendOk, stopAt, snapshot, i + 1, if ok then sent + {profiles[i]} else sent,
                   if ok then count + 1 else count, attempts + [a]);
    }
  }

  /** Attempts follow the list, and none is at or after a position where the stop flag was seen. */
  lemma {:induction false} LoopInOrder(profiles: seq<string>, maxMessages: int, sendOk: nat -> bool, stopAt: nat -> bool,
                                       i: nat, sent: set<string>, count: int, attempts: seq<Attempt>)
    requires i <= |profiles|
    requires InOrder(profiles, attempts, i) && forall j :: 0 <= j < i ==> !stopAt(j)
    ensures var r := Loop(profiles, maxMessages, sendOk, stopAt, i, sent, count, attempts);
      && InOrder(profiles, r.attempts, |profiles|)
      && (forall j, k :: 0 <= k < |r.attempts| && stopAt(j) ==> r.attempts[k].index < j)
      && (r.exit == Stopped ==> exists j :: stopAt(j))
    decreases |profiles| - i
  {
    if i == |profiles| || stopAt(i) || count >= maxMessages {
    } else if profiles[i] in sent {
      LoopInOrder(profiles, maxMessages, sendOk, stopAt, i + 1, sent, count, attempts);
    } else {
      var ok := sendOk(|attempts|);
      var next := attempts + [Attempt(i, profiles[i], ok)];
      assert InOrder(profiles, next, i + 1);
      LoopInOrder(profiles, maxMessages, sendOk, stopAt, i + 1, if ok then sent + {profiles[i]} else sent,
                  if ok then count + 1 else count, next);
    }
  }

  /** When the list runs out, every profile was either already sent or attempted. */
  lemma {:induction false} LoopCovers(profiles: seq<string>, maxMessages: int, sendOk: nat -> bool, stopAt: nat -> bool,
                                      i: nat, sent: set<string>, count: int, attempts: seq<Attempt>)
    requires i <= |profiles|
    requires forall j :: 0 <= j < i ==> profiles[j] in sent || Attempted(attempts, j)
    ensures var r := Loop(profiles, maxMessages, sendOk, stopAt, i, sent, count, attempts);
      r.exit == Exhausted ==> forall j :: 0 <= j < |profiles| ==> profiles[j] in r.sent || Attempted(r.attempts, j)
    decreases |profiles| - i
  {
    if i == |profiles| || stopAt(i) || count >= maxMessages {
    } else if profiles[i] in sent {
      LoopCovers(profiles, maxMessages, sendOk, stopAt, i + 1, sent, count, attempts);
    } else {
      var ok := sendOk(|attempts|);
      var attempts' := attempts + [Attempt(i, profiles[i], ok)];
      var sent' := if ok then sent + {profiles[i]} else sent;
      forall j | 0 <= j < i + 1
        ensures profiles[j] in sent' || Attempted(attempts', j)
      {
        if j == i {
          assert attempts'[|attempts|].index == i;
        } else if profiles[j] !in sent {
          var k :| 0 <= k < |attempts| && attempts[k].index == j;
          assert attempts'[k].index == j;
        }
      }
      LoopCovers(profiles, maxMessages, sendOk, stopAt, i + 1, sent', if ok then count + 1 else count, attempts');
    }
  }

  // ---------------------------------------------------------------------
  // The promises of a whole run
  // ---------------------------------------------------------------------

  /** `messages_sent` starts at 0, counts the successes, and never passes `max_messages`. */
  lemma RunWithinLimit(profiles: seq<string>, snapshot: set<string>, maxMessages: int, sendOk: nat -> bool,
                       stopAt: nat -> bool)
    ensures var r := Run(profiles, snapshot, maxMessages, sendOk, stopAt);
      && r.count == NumSuccess(r.attempts)
      && (maxMessages >= 0 ==> r.count <= maxMessages)
      && (maxMessages <= 0 ==> r.attempts == [])
      && (r.exit == LimitReached ==> r.count >= maxMessages)
  {
    LoopCount(profiles, maxMessages, sendOk, stopAt, 0, snapshot, 0, []);
  }

  lemma {:induction false} SuccessSetHas(attempts: seq<Attempt>, j: nat)
    requires j < |attempts| && attempts[j].success
    ensures attempts[j].profile in SuccessSet(attempts)
    decreases |attempts|
  {
    if j < |attempts| - 1 {
      SuccessSetHas(attempts[..|attempts| - 1], j);
      assert attempts[..|attempts| - 1][j] == attempts[j];
    }
  }

  lemma {:induction false} SuccessSetFrom(attempts: seq<Attempt>, p: string)
    requires p in SuccessSet(attempts)
    ensures exists k :: 0 <= k < |attempts| && attempts[k].success && attempts[k].profile == p
    decreases |attempts|
  {
    var n := |attempts| - 1;
    if p in SuccessSet(attempts[..n]) {
      SuccessSetFrom(attempts[..n], p);
      var k :| 0 <= k < n && attempts[..n][k].success && attempts[..n][k].profile == p;
      assert attempts[k] == attempts[..n][k];
    } else {
      assert attempts[n].success && attempts[n].profile == p;
    }
  }

  /** A profile in the snapshot, or one sent successfully earlier in the same run, is never attempted. */
  lemma RunNoResend(profiles: seq<string>, snapshot: set<string>, maxMessages: int, sendOk: nat -> bool,
                    stopAt: nat -> bool)
    ensures var r := Run(profiles, snapshot, maxMessages, sendOk, stopAt);
      forall k :: 0 <= k < |r.attempts| ==> r.attempts[k].profile !in snapshot
    ensures var r := Run(profiles, snapshot, maxMessages, sendOk, stopAt);
      forall j, k :: 0 <= j < k < |r.attempts| && r.attempts[j].success ==> r.attempts[k].profile != r.attempts[j].profile
  {
    LoopNoResend(profiles, maxMessages, sendOk, stopAt, snapshot, 0, snapshot, 0, []);
    var r := Run(profiles, snapshot, maxMessages, sendOk, stopAt);
    forall j, k | 0 <= j < k < |r.attempts| && r.attempts[j].success
      ensures r.attempts[k].profile != r.attempts[j].profile
    {
      assert r.attempts[..k][j] == r.attempts[j];
      SuccessSetHas(r.attempts[..k], j);
    }
  }

  /** The sent set only grows, and each profile it gains comes from a successful send. */
  lemma RunSentSet(profiles: seq<string>, snapshot: set<string>, maxMessages: int, sendOk: nat -> bool,
                   stopAt: nat -> bool)
    ensures var r := Run(profiles, snapshot, maxMessages, sendOk, stopAt);
      && r.sent == snapshot + SuccessSet(r.attempts)
      && snapshot <= r.sent
      && forall p :: p in r.sent - snapshot ==>
           exists k :: 0 <= k < |r.attempts| && r.attempts[k].success && r.attempts[k].profile == p
  {
    LoopSent(profiles, maxMessages, sendOk, stopAt, snapshot, 0, snapshot, 0, []);
    var r := Run(profiles, snapshot, maxMessages, sendOk, stopAt);
    forall p | p in r.sent - snapshot
      ensures exists k :: 0 <= k < |r.attempts| && r.attempts[k].success && r.attempts[k].profile == p
    {
      SuccessSetFrom(r.attempts, p);
    }
  }

  /** Profiles are attempted in list order, each position at most once, and none after the stop flag is seen. */
  lemma RunInOrder(profiles: seq<string>, snapshot: set<string>, maxMessages: int, sendOk: nat -> bool,
                   stopAt: nat -> bool)
    ensures var r := Run(profiles, snapshot, maxMessages, sendOk, stopAt);
      && (forall k :: 0 <= k < |r.attempts| ==>
            r.attempts[k].index < |profiles| && profiles[r.attempts[k].index] == r.attempts[k].profile)
      && (forall j, k :: 0 <= j < k < |r.attempts| ==> r.attempts[j].index < r.attempts[k].index)
      && (forall j, k :: 0 <= k < |r.attempts| && stopAt(j) ==> r.attempts[k].index < j)
      && (r.exit == Stopped ==> exists j :: stopAt(j))
  {
    LoopInOrder(profiles, maxMessages, sendOk, stopAt, 0, snapshot, 0, []);
  }

  /** What holds of a run's attempts holds of every prefix of them, which is what a run cut short by an error leaves. */
  lemma RunPrefix(profiles: seq<string>, snapshot: set<string>, maxMessages: int, sendOk: nat -> bool,
                  stopAt: nat -> bool, attempts: seq<Attempt>)
    requires attempts <= Run(profiles, snapshot, maxMessages, sendOk, stopAt).attempts
    ensures forall k :: 0 <= k < |attempts| ==> attempts[k].profile !in snapshot
    ensures forall j, k :: 0 <= j < k < |attempts| && attempts[j].success ==> attempts[k].profile != attempts[j].profile
    ensures forall j, k :: 0 <= j < k < |attempts| ==> attempts[j].index < attempts[k].index
    ensures maxMessages >= 0 ==> NumSuccess(attempts) <= maxMessages
  {
    var r := Run(profiles, snapshot, maxMessages, sendOk, stopAt);
    RunNoResend(profiles, snapshot, maxMessages, sendOk, stopAt);
    RunInOrder(profiles, snapshot, maxMessages, sendOk, stopAt);
    RunWithinLimit(profiles, snapshot, maxMessages, sendOk, stopAt);
    NumSuccessPrefix(attempts, r.attempts);
    assert forall k :: 0 <= k < |attempts| ==> attempts[k] == r.attempts[k];
  }

  /** A run that goes through the whole list leaves no profile both unsent and unattempted. */
  lemma RunCovers(profiles: seq<string>, snapshot: set<string>, maxMessages: int, sendOk: nat -> bool,
                  stopAt: nat -> bool)
    ensures var r := Run(profiles, snapshot, maxMessages, sendOk, stopAt);
      r.exit == Exhausted ==> forall j :: 0 <= j < |profiles| ==> profiles[j] in r.sent || Attempted(r.attempts, j)
  {
    LoopCovers(profiles, maxMessages, sendOk, stopAt, 0, snapshot, 0, []);
  }

  // ---------------------------------------------------------------------
  // What reaches the log
  // ---------------------------------------------------------------------

  /** The number of records whose `Status` cell, under the standard header, is `Success`. */
  function CountSuccessRows(rows: seq<Record>): nat
    decreases |rows|
  {
    if rows == [] then 0
    else CountSuccessRows(rows[..|rows| - 1]) + (if Field(Header, rows[|rows| - 1], StatusColumn) == Some("Success") then 1 else 0)
  }

  /** The row of an attempt: status `Success` exactly for a successful send, error text otherwise. */
  lemma AttemptRowFields(a: Attempt, message: string, stamp: string)
    ensures var row := AttemptRow(a, message, stamp);
      && |row| == |Header| && row[0] == a.profile && row[3] == stamp
      && (Field(Header, row, StatusColumn) == Some("Success") <==> a.success)
      && (a.success ==> row[4] == "")
      && (!a.success ==> row[1] == "Failed" && row[4] == FailureText)
  {
    assert ColumnIndex(Header, StatusColumn) == 1;
  }

  /** When every write succeeds, the log gains exactly one row per attempt, in attempt order. */
  lemma {:induction false} AllWritesLogged(attempts: seq<Attempt>, message: string, o: Oracle)
    requires forall k :: 0 <= k < |attempts| ==> o.writeOk(k)
    ensures var rows := LoggedRows(attempts, message, o);
      |rows| == |attempts| && forall k :: 0 <= k < |attempts| ==> rows[k] == AttemptRow(attempts[k], message, o.stamp(k))
    decreases |attempts|
  {
    if attempts != [] {
      var n := |attempts| - 1;
      AllWritesLogged(attempts[..n], message, o);
      var before := LoggedRows(attempts[..n], message, o);
      assert LoggedRows(attempts, message, o) == before + [AttemptRow(attempts[n], message, o.stamp(n))];
      assert forall k :: 0 <= k < n ==> attempts[..n][k] == attempts[k];
    }
  }

  /** The log never gains more `Success` rows than there were successful sends; as many when no write fails. */
  lemma {:induction false} SuccessRowsCounted(attempts: seq<Attempt>, message: string, o: Oracle)
    ensures CountSuccessRows(LoggedRows(attempts, message, o)) <= NumSuccess(attempts)
    ensures (forall k :: 0 <= k < |attempts| ==> o.writeOk(k)) ==>
      CountSuccessRows(LoggedRows(attempts, message, o)) == NumSuccess(attempts)
    decreases |attempts|
  {
    if attempts != [] {
      var n := |attempts| - 1;
      SuccessRowsCounted(attempts[..n], message, o);
      var before := LoggedRows(attempts[..n], message, o);
      AttemptRowFields(attempts[n], message, o.stamp(n));
      if o.writeOk(n) {
        var row := AttemptRow(attempts[n], message, o.stamp(n));
        assert (before + [row])[..|before|] == before;
      } else {
        assert before + [] == before;
      }
    }
  }

  /** A prefix of the attempts has no more successes than the whole. */
  lemma {:induction false} NumSuccessPrefix(a: seq<Attempt>, b: seq<Attempt>)
    requires a <= b
    ensures NumSuccess(a) <= NumSuccess(b)
    decreases |b|
  {
    if |a| < |b| {
      var n := |b| - 1;
      assert a <= b[..n];
      NumSuccessPrefix(a, b[..n]);
    } else {
      assert a == b;
    }
  }

  /** A run never logs more `Success` rows than `max_messages`. */
  lemma RunLogWithinLimit(profiles: seq<string>, snapshot: set<string>, maxMessages: int, o: Oracle,
                          stopAt: nat -> bool, message: string)
    requires maxMessages >= 0
    ensures CountSuccessRows(LoggedRows(Run(profiles, snapshot, maxMessages, o.sendOk, stopAt).attempts, message, o)) <= maxMessages
  {
    var r := Run(profiles, snapshot, maxMessages, o.sendOk, stopAt);
    RunWithinLimit(profiles, snapshot, maxMessages, o.sendOk, stopAt);
    SuccessRowsCounted(r.attempts, message, o);
  }

  /**
   * Read back, a log with the standard header that has gained the rows of a
   * run's attempts (every write succeeding) yields as sent set the old one
   * plus the run's successes: the next run's snapshot covers this run.
   */
  lemma {:induction false} LoggedSent(f: ResultsFile, attempts: seq<Attempt>, message: string, o: Oracle)
    requires f.Present? && f.lines != [] && f.lines[0] == Header
    requires forall k :: 0 <= k < |attempts| ==> o.writeOk(k)
    ensures LoadSentProfiles(AppendAll(f, LoggedRows(attempts, message, o))) == LoadSentProfiles(f) + SuccessSet(attempts)
    decreases |attempts|
  {
    if attempts != [] {
      var n := |attempts| - 1;
      var a := attempts[n];
      var before := LoggedRows(attempts[..n], message, o);
      var row := AttemptRow(a, message, o.stamp(n));
      calc {
        LoadSentProfiles(AppendAll(f, LoggedRows(attempts, message, o)));
        { assert LoggedRows(attempts, message, o) == before + [row]; }
        LoadSentProfiles(AppendAll(f, before + [row]));
        { SentAfterAppendAll(f, before, row); }
        LoadSentProfiles(AppendAll(f, before)) + RowSent(Header, row);
        { LoggedSent(f, attempts[..n], message, o);
          MadeRowSent(a.profile, StatusText(a.success), message, o.stamp(n), Some(if a.success then "" else FailureText)); }
        LoadSentProfiles(f) + SuccessSet(attempts[..n]) + (if a.success then {a.profile} else {});
        LoadSentProfiles(f) + SuccessSet(attempts);
      }
    }
  }

  /**
   * The scenario of three profiles, the first already sent, at most one
   * message, the second send succeeding: only the second is attempted, and
   * the log gains its one record when that write succeeds.
   */
  lemma ScenarioLimit(a: string, b: string, c: string, message: string, o: Oracle)
    requires a != b && b != c && a != c
    requires o.sendOk(0)
    ensures Run([a, b, c], {a}, 1, o.sendOk, NeverStop) ==
      Progress({a, b}, 1, [Attempt(1, b, true)], LimitReached)
    ensures o.writeOk(0) ==>
      LoggedRows(Run([a, b, c], {a}, 1, o.sendOk, NeverStop).attempts, message, o) ==
        [AttemptRow(Attempt(1, b, true), message, o.stamp(0))]
  {
    var ps := [a, b, c];
    assert Loop(ps, 1, o.sendOk, NeverStop, 0, {a}, 0, []) == Loop(ps, 1, o.sendOk, NeverStop, 1, {a}, 0, []);
    assert Loop(ps, 1, o.sendOk, NeverStop, 1, {a}, 0, []) == Loop(ps, 1, o.sendOk, NeverStop, 2, {a, b}, 1, [Attempt(1, b, true)]);
    assert [Attempt(1, b, true)][..0] == [];
  }
}
