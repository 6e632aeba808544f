/** Construction of a user (part3/app/models/user.py): the name and email
    checks in the order the constructor makes them, and the class-wide
    registry of emails already taken, which a successful construction
    extends and a refused one leaves alone. */
module UserModel {
  import opened Basics
  import opened Text

  /** The fields the constructor stores, exactly as given (nothing is trimmed). */
  datatype User = User(firstName: string, lastName: string, email: string)

  /** The `ValueError`s the constructor raises, in the order it checks them. */
  datatype Refusal = FirstNameTooLong | LastNameTooLong | EmailRequired | InvalidEmail | EmailTaken

  function Message(e: Refusal): string
  {
    match e
    case FirstNameTooLong => "first_name must be 50 characters or fewer"
    case LastNameTooLong => "last_name must be 50 characters or fewer"
    case EmailRequired => "Email is required"
    case InvalidEmail => "Invalid email format"
    case EmailTaken => "email must be unique"
  }

  const MaxNameLength := 50

  /** The characters Python's `str.strip()` removes: those for which
      `str.isspace()` holds. */
  predicate IsPySpace(c: char)
  {
    var n := c as int;
    (0x09 <= n <= 0x0D) || (0x1C <= n <= 0x20) || n == 0x85 || n == 0xA0 || n == 0x1680
    || (0x2000 <= n <= 0x200A) || n == 0x2028 || n == 0x2029 || n == 0x202F || n == 0x205F
    || n == 0x3000
  }

  /** `not email or not email.strip()`; `None` is an absent email. */
  predicate Blank(email: Option<string>)
  {
    email.None? || email.value == "" || Trim(email.value, IsPySpace) == ""
  }

  datatype Outcome = Constructed(user: User) | Refused(reason: Refusal)

  /** The first check that fails, if any. */
  function FirstFailure(used: set<string>, first: string, last: string, email: Option<string>): Option<Refusal>
  {
    if |first| > MaxNameLength then Some(FirstNameTooLong)
    else if |last| > MaxNameLength then Some(LastNameTooLong)
    else if Blank(email) then Some(EmailRequired)
    else if '@' !in email.value then Some(InvalidEmail)
    else if email.value in used then Some(EmailTaken)
    else None
  }

  /** `User(first_name, last_name, email)` against the registry `used`:
      the outcome and the registry afterwards. */
  function NewUser(used: set<string>, first: string, last: string, email: Option<string>): (r: (Outcome, set<string>))
    ensures r.0.Constructed? ==>
              && email.Some? && r.0.user == User(first, last, email.value)
              && email.value !in used && r.1 == used + {email.value}
    ensures r.0.Refused? ==> r.1 == used
    ensures r.0.Constructed? <==>
              |first| <= MaxNameLength && |last| <= MaxNameLength && !Blank(email)
              && '@' in email.value && email.value !in used
  {
    match FirstFailure(used, first, last, email)
    case Some(e) => (Refused(e), used)
    case None => (Constructed(User(first, last, email.value)), used + {email.value})
  }

  /** Each refusal is raised exactly when its own check fails and every
      earlier check passed. */
  lemma RefusalOrder(used: set<string>, first: string, last: string, email: Option<string>)
    ensures NewUser(used, first, last, email).0 == Refused(FirstNameTooLong) <==> |first| > MaxNameLength
    ensures NewUser(used, first, last, email).0 == Refused(LastNameTooLong) <==>
              |first| <= MaxNameLength && |last| > MaxNameLength
    ensures NewUser(used, first, last, email).0 == Refused(EmailRequired) <==>
              |first| <= MaxNameLength && |last| <= MaxNameLength && Blank(email)
    ensures NewUser(used, first, last, email).0 == Refused(InvalidEmail) <==>
              |first| <= MaxNameLength && |last| <= MaxNameLength && !Blank(email) && '@' !in email.value
    ensures NewUser(used, first, last, email).0 == Refused(EmailTaken) <==>
              |first| <= MaxNameLength && |last| <= MaxNameLength && !Blank(email) && '@' in email.value
              && email.value in used
  {
  }

  /** A constructor call: the three arguments. */
  datatype Request = Request(first: string, last: string, email: Option<string>)

  /** Constructs users one after another against the shared registry:
      every outcome, and the registry at the end. */
  function ConstructAll(used: set<string>, requests: seq<Request>): (r: (seq<Outcome>, set<string>))
    ensures |r.0| == |requests|
    ensures used <= r.1
    decreases |requests|
  {
    if |requests| == 0 then ([], used)
    else
      var q := requests[0];
      var step := NewUser(used, q.first, q.last, q.email);
      var rest := ConstructAll(step.1, requests[1..]);
      ([step.0] + rest.0, rest.1)
  }

  /** The emails of the users that were constructed, in order. */
  function Emails(outcomes: seq<Outcome>): seq<string>
  {
    if |outcomes| == 0 then []
    else if outcomes[0].Constructed? then [outcomes[0].user.email] + Emails(outcomes[1..])
    else Emails(outcomes[1..])
  }

  predicate Distinct(s: seq<string>)
  {
    forall i, j :: 0 <= i < j < |s| ==> s[i] != s[j]
  }

  lemma {:induction false} EmailsOfCons(o: Outcome, rest: seq<Outcome>)
    ensures Emails([o] + rest) == (if o.Constructed? then [o.user.email] else []) + Emails(rest)
  {
    assert ([o] + rest)[1..] == rest;
  }

  /** One step of a run: the first outcome, then the run from the registry it leaves. */
  lemma ConstructAllStep(used: set<string>, requests: seq<Request>)
    requires |requests| > 0
    ensures var step := NewUser(used, requests[0].first, requests[0].last, requests[0].email);
            var rest := ConstructAll(step.1, requests[1..]);
            && ConstructAll(used, requests).1 == rest.1
            && Emails(ConstructAll(used, requests).0)
               == (if step.0.Constructed? then [step.0.user.email] else []) + Emails(rest.0)
  {
    var step := NewUser(used, requests[0].first, requests[0].last, requests[0].email);
    EmailsOfCons(step.0, ConstructAll(step.1, requests[1..]).0);
  }

  /** Over any run of constructions, the registry at the end is the
      registry at the start plus exactly the emails of the users made. */
  lemma {:induction false} RegistryGrowsByConstructedEmails(used: set<string>, requests: seq<Request>)
    ensures ConstructAll(used, requests).1 == used + set e | e in Emails(ConstructAll(used, requests).0)
    decreases |requests|
  {
    if |requests| > 0 {
      var step := NewUser(used, requests[0].first, requests[0].last, requests[0].email);
      RegistryGrowsByConstructedEmails(step.1, requests[1..]);
      ConstructAllStep(used, requests);
    }
  }

  /** None of the emails a run registers was taken before it started. */
  lemma {:induction false} ConstructedEmailsWereFree(used: set<string>, requests: seq<Request>)
    ensures forall e :: e in Emails(ConstructAll(used, requests).0) ==> e !in used
    decreases |requests|
  {
    if |requests| > 0 {
      var step := NewUser(used, requests[0].first, requests[0].last, requests[0].email);
      ConstructedEmailsWereFree(step.1, requests[1..]);
      ConstructAllStep(used, requests);
    }
  }

  /** No two users made in a run share an email. */
  lemma {:induction false} ConstructedEmailsDistinct(used: set<string>, requests: seq<Request>)
    ensures Distinct(Emails(ConstructAll(used, requests).0))
    decreases |requests|
  {
    if |requests| > 0 {
      var step := NewUser(used, requests[0].first, requests[0].last, requests[0].email);
      var es := Emails(ConstructAll(step.1, requests[1..]).0);
      ConstructedEmailsDistinct(step.1, requests[1..]);
      ConstructAllStep(used, requests);
      if step.0.Constructed? {
        ConstructedEmailsWereFree(step.1, requests[1..]);
        var all := [step.0.user.email] + es;
        forall i, j | 0 <= i < j < |all| ensures all[i] != all[j] {
          if i > 0 {
            assert all[i] == es[i - 1] && all[j] == es[j - 1];
          } else {
            assert all[j] in es;
          }
        }
      }
    }
  }

  /** Every user constructed in a run carries the fields it was given,
      untrimmed. */
  lemma {:induction false} ConstructedAsGiven(used: set<string>, requests: seq<Request>, i: nat)
    requires i < |requests| && ConstructAll(used, requests).0[i].Constructed?
    ensures requests[i].email.Some?
    ensures ConstructAll(used, requests).0[i].user
            == User(requests[i].first, requests[i].last, requests[i].email.value)
    decreases |requests|
  {
    var q := requests[0];
    var step := NewUser(used, q.first, q.last, q.email);
    if i > 0 {
      ConstructedAsGiven(step.1, requests[1..], i - 1);
    }
  }
}
