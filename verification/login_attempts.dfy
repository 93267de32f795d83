/** `LoginAttemptsService`: an in-memory, append-only audit log of login
    attempts. The optional `ip` and `userAgent` properties are never set by
    the services and are not modelled. */
module LoginAttempts {

  datatype LoginAttempt = LoginAttempt(email: string, success: bool, timestamp: int)

  type Log = seq<LoginAttempt>

  /** `logAttempt(attempt)`: pushes the record at the end of the log. */
  function LogAttempt(log: Log, a: LoginAttempt): (r: Log)
    ensures |r| == |log| + 1
    ensures r[..|log|] == log
    ensures r[|log|] == a
  {
    log + [a]
  }

  /** `getAllAttempts()`: the whole log, oldest first. */
  function GetAllAttempts(log: Log): (r: Log)
    ensures |r| == |log|
    ensures forall i :: 0 <= i < |log| ==> r[i] == log[i]
  {
    log
  }

  /** Logging several attempts one after another. */
  function LogAll(log: Log, attempts: seq<LoginAttempt>): Log
    decreases |attempts|
  {
    if |attempts| == 0 then log
    else LogAll(LogAttempt(log, attempts[0]), attempts[1..])
  }

  /** Whatever was logged is read back in the order it was logged, after
      everything that was there before. */
  lemma {:induction false} ReadBackInOrder(log: Log, attempts: seq<LoginAttempt>)
    ensures GetAllAttempts(LogAll(log, attempts)) == log + attempts
    decreases |attempts|
  {
    if |attempts| > 0 {
      ReadBackInOrder(log + [attempts[0]], attempts[1..]);
      assert log + [attempts[0]] + attempts[1..] == log + attempts;
    }
  }

  /** `getAttemptsByEmail(email)`: `attempts.filter(a => a.email === email)`. */
  function GetAttemptsByEmail(log: Log, email: string): (r: Log)
    ensures |r| <= |log|
    ensures forall i :: 0 <= i < |r| ==> r[i].email == email
    ensures forall a :: a in log && a.email == email <==> a in r
  {
    if |log| == 0 then []
    else if log[0].email == email then [log[0]] + GetAttemptsByEmail(log[1..], email)
    else GetAttemptsByEmail(log[1..], email)
  }

  /** The filter keeps the log's order: filtering a log that grew by one
      record grows the result by that record exactly when its email matches. */
  lemma {:induction false} FilterAppend(log: Log, a: LoginAttempt, email: string)
    ensures GetAttemptsByEmail(log + [a], email) ==
            GetAttemptsByEmail(log, email) + (if a.email == email then [a] else [])
    decreases |log|
  {
    if |log| == 0 {
      assert log + [a] == [a];
      assert [a][1..] == [];
    } else {
      assert (log + [a])[0] == log[0];
      assert (log + [a])[1..] == log[1..] + [a];
      FilterAppend(log[1..], a, email);
    }
  }
}
