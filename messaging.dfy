/**
 * The browser session as the campaign loops see it. The Selenium driving of
 * app/modules/browser.py is not part of this model: `login` and
 * `send_message` only report an outcome, which the caller supplies.
 */
module Messaging {

  class Browser {
    var loggedIn: bool
    var closeCount: nat

    constructor ()
      ensures !loggedIn && closeCount == 0
    {
      loggedIn := false;
      closeCount := 0;
    }

    /** `login`: faults inside become a `false` result, never an exception. */
    method Login(outcome: bool) returns (ok: bool)
      requires closeCount == 0
      modifies this
      ensures ok == outcome && loggedIn == outcome && closeCount == 0
    {
      ok := outcome;
      loggedIn := outcome;
    }

    /** `send_message`: only in a logged-in, open session. */
    method SendMessage(profileUrl: string, text: string, outcome: bool) returns (ok: bool)
      requires loggedIn && closeCount == 0
      ensures ok == outcome
    {
      ok := outcome;
    }

    /** `close`: safe in any state. */
    method Close()
      modifies this
      ensures closeCount == old(closeCount) + 1 && !loggedIn
    {
      closeCount := closeCount + 1;
      loggedIn := false;
    }
  }
}
