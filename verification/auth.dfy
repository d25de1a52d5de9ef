/**
  The simulated session: one stored user record under a fixed storage key,
  written by login, read back on every page and cleared by logout.

  Without a browser (`Server`) nothing is stored and nothing is read back.
  A storage access that throws is not caught in the session helpers, so it
  surfaces as a `Failure`.
 */
module Auth {
  import opened Wrappers
  import opened Text
  import opened Domain
  import opened Storage

  type SessionHost = Host<User>

  const FallbackName := "User"

  /** The display name: the text before the first `@`, or `User` when that is empty. */
  function NameFromEmail(email: string): (r: string)
    ensures r != []
    ensures r == FallbackName || (StartsWith(email, r) && '@' !in r && (|r| < |email| ==> email[|r|] == '@'))
    ensures (email == [] || email[0] == '@') ==> r == FallbackName
  {
    var local := Before(email, '@');
    if local == [] then FallbackName else local
  }

  /** When the email has a non-empty part before its first `@`, that part is the name. */
  lemma NameIsLocalPart(email: string, k: nat)
    requires 0 < k < |email| && email[k] == '@' && '@' !in email[..k]
    ensures NameFromEmail(email) == email[..k]
  {
  }

  /** An email without `@` is its own name, unless it is empty. */
  lemma NameWithoutAt(email: string)
    requires '@' !in email && email != []
    ensures NameFromEmail(email) == email
  {
  }

  /** `simulateLogin`: build the user from the clock and the email, and store it in the browser. */
  function SimulateLogin(host: SessionHost, email: string, role: UserRole, now: nat): (r: Result<(User, SessionHost), StorageError>)
    ensures r.Success? ==> r.value.0 == User(Decimal(now), email, role, NameFromEmail(email))
    ensures r.Failure? <==> host.Browser? && (host.medium.accessFails || host.medium.writeFails)
    ensures r.Success? ==> r.value.1.Server? == host.Server?
  {
    var user := User(Decimal(now), email, role, NameFromEmail(email));
    match host
    case Server => Success((user, Server))
    case Browser(m) =>
      match SetItem(m, user)
      case Success(m') => Success((user, Browser(m')))
      case Failure(e) => Failure(e)
  }

  /** `getSimulatedUser`: the stored user, or none when nothing (or the empty string) is stored. */
  function GetSimulatedUser(host: SessionHost): (r: Result<Option<User>, StorageError>)
    ensures host.Server? ==> r == Success(None)
    ensures r.Failure? <==> host.Browser? && (host.medium.accessFails || host.medium.slot.Malformed?)
    ensures r.Success? && r.value.Some? <==> host.Browser? && !host.medium.accessFails && host.medium.slot.Encoded?
    ensures host.Browser? && !host.medium.accessFails && host.medium.slot.Encoded? ==>
      r == Success(Some(host.medium.slot.value))
  {
    match host
    case Server => Success(None)
    case Browser(m) =>
      match GetItem(m)
      case Failure(e) => Failure(e)
      case Success(slot) =>
        match slot
        case Missing => Success(None)
        case Blank => Success(None)
        case Encoded(u) => Success(Some(u))
        case Malformed => Failure(ParseError)
  }

  /** `simulateLogout`: clear the stored record in the browser. */
  function SimulateLogout(host: SessionHost): (r: Result<SessionHost, StorageError>)
    ensures r.Failure? <==> host.Browser? && host.medium.accessFails
    ensures r.Success? ==> r.value.Server? == host.Server?
  {
    match host
    case Server => Success(Server)
    case Browser(m) =>
      match RemoveItem(m)
      case Success(m') => Success(Browser(m'))
      case Failure(e) => Failure(e)
  }

  // ---------------------------------------------------------------------------
  // The session as a state machine

  /** The user built by login carries exactly the given email and role. */
  lemma LoginKeepsEmailAndRole(host: SessionHost, email: string, role: UserRole, now: nat)
    requires SimulateLogin(host, email, role, now).Success?
    ensures var u := SimulateLogin(host, email, role, now).value.0;
      u.email == email && u.role == role && u.id == Decimal(now)
  {
  }

  /** After a login in the browser the same user is read back. */
  lemma LoginThenGet(host: SessionHost, email: string, role: UserRole, now: nat)
    requires host.Browser? && SimulateLogin(host, email, role, now).Success?
    ensures var (u, h) := SimulateLogin(host, email, role, now).value;
      GetSimulatedUser(h) == Success(Some(u))
  {
  }

  /** A second login replaces the first: only the later user is read back. */
  lemma SecondLoginOverwrites(host: SessionHost, e1: string, r1: UserRole, t1: nat, e2: string, r2: UserRole, t2: nat)
    requires host.Browser? && SimulateLogin(host, e1, r1, t1).Success?
    ensures var h := SimulateLogin(host, e1, r1, t1).value.1;
      SimulateLogin(h, e2, r2, t2) == SimulateLogin(host, e2, r2, t2)
  {
    SetOverwrites(host.medium, SimulateLogin(host, e1, r1, t1).value.0, User(Decimal(t2), e2, r2, NameFromEmail(e2)));
  }

  /** Nothing stored, or the empty string, reads as no user. */
  lemma NothingStoredIsNoUser(m: Medium<User>)
    requires !m.accessFails && (m.slot.Missing? || m.slot.Blank?)
    ensures GetSimulatedUser(Browser(m)) == Success(None)
  {
  }

  /** After logout no user is read back. */
  lemma LogoutThenGet(host: SessionHost)
    requires SimulateLogout(host).Success?
    ensures GetSimulatedUser(SimulateLogout(host).value) == Success(None)
  {
  }

  /** Logging out twice is the same as logging out once. */
  lemma LogoutIdempotent(host: SessionHost)
    requires SimulateLogout(host).Success?
    ensures SimulateLogout(SimulateLogout(host).value) == SimulateLogout(host)
  {
  }

  /** Without a browser a login is never remembered. */
  lemma ServerForgets(email: string, role: UserRole, now: nat)
    ensures var r := SimulateLogin(Server, email, role, now);
      r.Success? && GetSimulatedUser(r.value.1) == Success(None)
  {
  }
}
