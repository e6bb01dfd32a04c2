/** use_credit (app/api/credits.py): spends one graph credit of the signed-in
    user, kept in the `users` table, which is modelled as a map from email
    to the row's `graph_credits` value. */
module Credits {
  import opened Pandas

  /** What selecting `graph_credits` returns for a row: a record without
      the field, a NULL, or a number. */
  datatype CreditsField = Missing | Null | Credits(n: int)

  /** What get_current_user yields: nobody, or the user's claims, which may
      lack an email. */
  datatype Session = Anonymous | SignedIn(email: Option<string>)

  /** A 200 body, or an HTTPException's status and detail. */
  datatype CreditResponse = Reply(status: string, creditsRemaining: int) | Failed(code: nat, detail: string)

  type Users = map<string, CreditsField>

  const NotAuthenticated := "Not authenticated"
  const ProcessingError := "An error occurred while processing credits."

  /** The value the `eq('email', ...)` filter compares with: a missing email
      is sent as the text "None". */
  function EmailKey(email: Option<string>): string {
    if email.Some? then email.value else "None"
  }

  /** `data.get('graph_credits', 0)` on a record that has passed the
      emptiness test, so the field is there; None where the value is NULL,
      on which `> 0` raises TypeError. */
  function Balance(f: CreditsField): Option<int>
    requires !f.Missing?
  {
    match f
    case Null => None
    case Credits(n) => Some(n)
  }

  /** use_credit as a function of the table: the response and the table
      after the call. Every exception inside the `try`, the 404 for a
      missing profile included, becomes the same 500. */
  function SpendCredit(users: Users, session: Session): (r: (CreditResponse, Users))
    ensures r.1.Keys == users.Keys
    ensures r.0.Failed? ==> r.1 == users
    ensures r.0.Reply? ==> r.0.creditsRemaining >= 0
  {
    match session
    case Anonymous => (Failed(401, NotAuthenticated), users)
    case SignedIn(email) =>
      var key := EmailKey(email);
      if key !in users then
        // `.single()` raises when no row matches
        (Failed(500, ProcessingError), users)
      else if users[key].Missing? then
        // an empty record is falsy: the 404 is raised, then caught
        (Failed(500, ProcessingError), users)
      else
        match Balance(users[key])
        case None => (Failed(500, ProcessingError), users)
        case Some(n) =>
          if n > 0 then (Reply("success", n - 1), users[key := Credits(n - 1)])
          else (Reply("insufficient_credits", 0), users)
  }

  /** The users table, updated in place. */
  class UsersTable {
    var rows: Users

    constructor (initial: Users)
      ensures rows == initial
    {
      rows := initial;
    }

    /** use_credit */
    method UseCredit(session: Session) returns (r: CreditResponse)
      modifies this
      ensures (r, rows) == SpendCredit(old(rows), session)
    {
      if session.Anonymous? {
        return Failed(401, NotAuthenticated);
      }
      var key := EmailKey(session.email);
      if key !in rows || rows[key].Missing? {
        return Failed(500, ProcessingError);
      }
      var current := Balance(rows[key]);
      if current.None? {
        return Failed(500, ProcessingError);
      }
      if current.value > 0 {
        var remaining := current.value - 1;
        rows := rows[key := Credits(remaining)];
        r := Reply("success", remaining);
      } else {
        r := Reply("insufficient_credits", 0);
      }
    }
  }

  // ---------------------------------------------------------------------
  // Properties

  /** An unauthenticated call is a 401 and writes nothing. */
  lemma AnonymousIs401(users: Users)
    ensures SpendCredit(users, Anonymous) == (Failed(401, NotAuthenticated), users)
  {
  }

  /** Every failure leaves the table as it was, and every 500 carries the
      same detail. */
  lemma FailureWritesNothing(users: Users, session: Session)
    ensures var (r, after) := SpendCredit(users, session);
      r.Failed? ==> after == users && (r.code == 401 || r.detail == ProcessingError)
  {
  }

  /** A caller without a row, or whose record lacks the field, or whose
      balance is NULL, gets the 500. */
  lemma UnusableProfileIs500(users: Users, email: Option<string>)
    requires var key := EmailKey(email);
      key !in users || users[key].Missing? || users[key].Null?
    ensures SpendCredit(users, SignedIn(email)) == (Failed(500, ProcessingError), users)
  {
  }

  /** A positive balance goes down by exactly one, and the response reports
      the new balance; otherwise nothing is written and 0 is reported. */
  lemma SpendsExactlyOne(users: Users, email: Option<string>, n: int)
    requires EmailKey(email) in users && users[EmailKey(email)] == Credits(n)
    ensures var (r, after) := SpendCredit(users, SignedIn(email));
      && (n > 0 ==> r == Reply("success", n - 1) && after[EmailKey(email)] == Credits(n - 1))
      && (n <= 0 ==> r == Reply("insufficient_credits", 0) && after == users)
  {
  }

  /** Only the caller's entry can change, and no entry appears or vanishes. */
  lemma OthersUntouched(users: Users, session: Session, other: string)
    requires session.SignedIn? ==> other != EmailKey(session.email)
    ensures var after := SpendCredit(users, session).1;
      && after.Keys == users.Keys
      && (other in users ==> after[other] == users[other])
  {
  }

  ghost predicate NonNegative(users: Users) {
    forall k :: k in users && users[k].Credits? ==> users[k].n >= 0
  }

  /** No balance is driven below zero. */
  lemma StaysNonNegative(users: Users, session: Session)
    requires NonNegative(users)
    ensures NonNegative(SpendCredit(users, session).1)
  {
  }

  /** The table after k calls by the same session. */
  function SpendRepeatedly(users: Users, session: Session, k: nat): Users {
    if k == 0 then users else SpendRepeatedly(SpendCredit(users, session).1, session, k - 1)
  }

  /** k calls spend min(k, n) of a balance n >= 0: it ends at max(0, n - k). */
  lemma {:induction false} RepeatedSpending(users: Users, email: Option<string>, n: int, k: nat)
    requires EmailKey(email) in users && users[EmailKey(email)] == Credits(n) && n >= 0
    ensures var after := SpendRepeatedly(users, SignedIn(email), k);
      EmailKey(email) in after && after[EmailKey(email)] == Credits(if n >= k then n - k else 0)
  {
    if k > 0 {
      var next := SpendCredit(users, SignedIn(email)).1;
      SpendsExactlyOne(users, email, n);
      RepeatedSpending(next, email, if n > 0 then n - 1 else 0, k - 1);
    }
  }
}
