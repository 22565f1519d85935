/**
 * Client registration and lookup (service/ClientServiceImpl.java) over an
 * in-memory client repository (repository/ClientRepository.java).
 */
module Clients {
  import opened Wrappers
  import opened Model
  import opened StatusMessages

  // ---------------------------------------------------------------------------
  // Character classes used by the two validation patterns
  // ---------------------------------------------------------------------------

  /** The characters Java's `.` does not match outside DOTALL mode. */
  predicate IsLineTerminator(c: char)
  {
    c == '\n' || c == '\r' || c == '\U{85}' || c == '\U{2028}' || c == '\U{2029}'
  }

  predicate IsDigit(c: char) { '0' <= c <= '9' }

  predicate IsLower(c: char) { 'a' <= c <= 'z' }

  predicate IsUpper(c: char) { 'A' <= c <= 'Z' }

  predicate IsLetterOrDigit(c: char) { IsLower(c) || IsUpper(c) || IsDigit(c) }

  /** `[a-zA-Z0-9_.+-]`, the local part of an address. */
  predicate IsLocalChar(c: char) { IsLetterOrDigit(c) || c == '_' || c == '.' || c == '+' || c == '-' }

  /** `[a-zA-Z0-9-]`, the label between '@' and the first '.'. */
  predicate IsLabelChar(c: char) { IsLetterOrDigit(c) || c == '-' }

  /** `[a-zA-Z0-9-.]`, everything after that '.'. */
  predicate IsTailChar(c: char) { IsLetterOrDigit(c) || c == '-' || c == '.' }

  // ---------------------------------------------------------------------------
  // Password policy: ^(?=.*[0-9])(?=.*[a-z])(?=.*[A-Z]).{8,}$
  // ---------------------------------------------------------------------------

  ghost predicate NoLineTerminator(s: string) { forall i :: 0 <= i < |s| ==> !IsLineTerminator(s[i]) }

  ghost predicate HasDigit(s: string) { exists i :: 0 <= i < |s| && IsDigit(s[i]) }

  ghost predicate HasLower(s: string) { exists i :: 0 <= i < |s| && IsLower(s[i]) }

  ghost predicate HasUpper(s: string) { exists i :: 0 <= i < |s| && IsUpper(s[i]) }

  /** What the three look-aheads have found so far. */
  datatype Seen = Seen(digit: bool, lower: bool, upper: bool)

  /**
   * One left-to-right pass over the password: `None` as soon as a character
   * that `.` refuses turns up, otherwise which of the three classes occur.
   */
  function ScanPassword(s: string): (r: Option<Seen>)
    ensures r.Some? <==> NoLineTerminator(s)
    ensures r.Some? ==> (r.value.digit <==> HasDigit(s))
    ensures r.Some? ==> (r.value.lower <==> HasLower(s))
    ensures r.Some? ==> (r.value.upper <==> HasUpper(s))
  {
    if s == [] then Some(Seen(false, false, false))
    else if IsLineTerminator(s[0]) then None
    else
      match ScanPassword(s[1..])
      case None => None
      case Some(seen) =>
        assert forall i :: 1 <= i < |s| ==> s[i] == s[1..][i - 1];
        Some(Seen(seen.digit || IsDigit(s[0]), seen.lower || IsLower(s[0]), seen.upper || IsUpper(s[0])))
  }

  /**
   * The password policy of registration: at least eight characters, none of
   * them a line terminator, with a digit, a lower-case and an upper-case ASCII
   * letter among them.
   */
  function IsValidPassword(password: string): (r: bool)
    ensures r <==> |password| >= 8 && NoLineTerminator(password)
                   && HasDigit(password) && HasLower(password) && HasUpper(password)
  {
    |password| >= 8 &&
    match ScanPassword(password)
    case None => false
    case Some(seen) => seen.digit && seen.lower && seen.upper
  }

  // ---------------------------------------------------------------------------
  // E-mail shape: ^[a-zA-Z0-9_.+-]+@[a-zA-Z0-9-]+\.[a-zA-Z0-9-.]+$
  // ---------------------------------------------------------------------------

  /**
   * `s` splits as local part, '@' at `at`, label, '.' at `dot`, tail, each of
   * the three parts non-empty and drawn from its character class.
   */
  predicate EmailShape(s: string, at: nat, dot: nat)
  {
    && 0 < at && at + 1 < dot && dot + 1 < |s|
    && s[at] == '@' && s[dot] == '.'
    && (forall i :: 0 <= i < at ==> IsLocalChar(s[i]))
    && (forall i :: at < i < dot ==> IsLabelChar(s[i]))
    && (forall i :: dot < i < |s| ==> IsTailChar(s[i]))
  }

  /** The language of the e-mail pattern. */
  ghost predicate EmailFormat(s: string)
  {
    exists at: nat, dot: nat :: EmailShape(s, at, dot)
  }

  /** The index of the first `c` in `s`, if any. */
  function IndexOf(s: string, c: char): (r: Option<nat>)
    ensures r.Some? ==> r.value < |s| && s[r.value] == c && forall j :: 0 <= j < r.value ==> s[j] != c
    ensures r.None? ==> forall j :: 0 <= j < |s| ==> s[j] != c
  {
    if s == [] then None
    else if s[0] == c then Some(0)
    else
      match IndexOf(s[1..], c)
      case None => None
      case Some(k) => Some(k + 1)
  }

  /**
   * The e-mail check of registration. No character class of the pattern holds
   * '@', and the label's holds no '.', so the match is decided by the first '@'
   * and the first '.' after it.
   */
  function IsValidEmail(email: string): (r: bool)
    ensures r ==> EmailFormat(email)
  {
    match IndexOf(email, '@')
    case None => false
    case Some(at) =>
      match IndexOf(email[at + 1..], '.')
      case None => false
      case Some(k) => EmailShape(email, at, at + 1 + k)
  }

  /** `IndexOf` finds the first occurrence. */
  lemma {:induction false} IndexOfFirst(s: string, c: char, k: nat)
    requires k < |s| && s[k] == c
    requires forall j :: 0 <= j < k ==> s[j] != c
    ensures IndexOf(s, c) == Some(k)
  {
    if k > 0 {
      IndexOfFirst(s[1..], c, k - 1);
    }
  }

  /** The check accepts exactly the strings the pattern describes. */
  lemma IsValidEmailCharacterization(email: string)
    ensures IsValidEmail(email) <==> EmailFormat(email)
  {
    if EmailFormat(email) {
      var at: nat, dot: nat :| EmailShape(email, at, dot);
      assert !IsLocalChar('@') && !IsLabelChar('.');
      IndexOfFirst(email, '@', at);
      var rest := email[at + 1..];
      assert forall j :: 0 <= j < dot - at - 1 ==> rest[j] == email[at + 1 + j];
      IndexOfFirst(rest, '.', dot - at - 1);
    }
  }

  /** A valid address holds exactly one '@'. */
  lemma ValidEmailHasOneAt(email: string, i: nat, j: nat)
    requires IsValidEmail(email)
    requires i < |email| && j < |email| && email[i] == '@' && email[j] == '@'
    ensures i == j
  {
    var at: nat, dot: nat :| EmailShape(email, at, dot);
    assert !IsLocalChar('@') && !IsLabelChar('@') && !IsTailChar('@');
    assert i == at && j == at;
  }

  // ---------------------------------------------------------------------------
  // The client repository and the service
  // ---------------------------------------------------------------------------

  /** The `clients` table: rows keyed by id, e-mail and username unique. */
  class ClientRepository {
    var clients: map<Uuid, Client>

    ghost predicate Valid()
      reads this
    {
      && (forall id :: id in clients ==> clients[id].id == id)
      && (forall i, j :: i in clients && j in clients && clients[i].email == clients[j].email ==> i == j)
      && (forall i, j :: i in clients && j in clients && clients[i].username == clients[j].username ==> i == j)
    }

    constructor ()
      ensures Valid() && clients == map[]
    {
      clients := map[];
    }

    /** `existsByEmail`. */
    predicate ExistsByEmail(email: string)
      reads this
    {
      exists id | id in clients :: clients[id].email == email
    }

    /** `existsByUsername`. */
    predicate ExistsByUsername(username: string)
      reads this
    {
      exists id | id in clients :: clients[id].username == username
    }

    /** `findByUsername`: the one client with that username, if any. */
    function FindByUsername(username: string): (r: Option<Client>)
      reads this
      requires Valid()
      ensures r.None? <==> !ExistsByUsername(username)
      ensures r.Some? ==> r.value.id in clients && clients[r.value.id] == r.value && r.value.username == username
    {
      if exists id | id in clients :: clients[id].username == username then
        var id :| id in clients && clients[id].username == username;
        Some(clients[id])
      else
        None
    }

    /** `save` of a new row whose keys are still free. */
    method Save(client: Client)
      requires Valid()
      requires client.id !in clients && !ExistsByEmail(client.email) && !ExistsByUsername(client.username)
      modifies this
      ensures Valid()
      ensures clients == old(clients)[client.id := client]
    {
      clients := clients[client.id := client];
    }
  }

  /** The message of the e-mail rejection: "Incorrect email input " followed by the address. */
  function IncorrectEmailMessage(email: string): string
  {
    "Incorrect email input " + email
  }

  const REGISTRATION_FAILED_MESSAGE := "Failed to register user"

  class ClientService {
    const clientRepository: ClientRepository

    constructor (repository: ClientRepository)
      ensures clientRepository == repository
    {
      clientRepository := repository;
    }

    /**
     * `registerClient`. `encode` stands for the password encoder, `newId` for
     * the id the database generates, `now` for the creation timestamp and
     * `saveFails` for an exception thrown while building or saving the row.
     */
    method RegisterClient(dto: ClientDto, encode: string -> string, newId: Uuid, now: Timestamp, saveFails: bool)
      returns (r: Result<Client, Error>)
      requires clientRepository.Valid()
      requires newId !in clientRepository.clients
      modifies clientRepository
      ensures clientRepository.Valid()
      ensures !IsValidEmail(dto.email) ==>
                r == Failure(IllegalArgument(IncorrectEmailMessage(dto.email)))
      ensures IsValidEmail(dto.email) && !IsValidPassword(dto.password) ==>
                r == Failure(IllegalArgument(PASSWORD_POLICY_ERROR))
      ensures IsValidEmail(dto.email) && IsValidPassword(dto.password)
              && old(clientRepository.ExistsByEmail(dto.email)) ==>
                r == Failure(EmailExists(EMAIL_IN_USE_ERROR))
      ensures IsValidEmail(dto.email) && IsValidPassword(dto.password)
              && !old(clientRepository.ExistsByEmail(dto.email))
              && old(clientRepository.ExistsByUsername(dto.username)) ==>
                r == Failure(UsernameExists(USERNAME_IN_USE_ERROR))
      ensures IsValidEmail(dto.email) && IsValidPassword(dto.password)
              && !old(clientRepository.ExistsByEmail(dto.email))
              && !old(clientRepository.ExistsByUsername(dto.username)) ==>
                if saveFails then r == Failure(Runtime(REGISTRATION_FAILED_MESSAGE))
                else r == Success(Client(newId, dto.email, encode(dto.password), dto.name, dto.username,
                                         Some(now), None, USER))
      ensures r.Failure? ==> clientRepository.clients == old(clientRepository.clients)
      ensures r.Success? ==> clientRepository.clients == old(clientRepository.clients)[newId := r.value]
    {
      if !IsValidEmail(dto.email) {
        return Failure(IllegalArgument(IncorrectEmailMessage(dto.email)));
      } else if !IsValidPassword(dto.password) {
        return Failure(IllegalArgument(PASSWORD_POLICY_ERROR));
      }
      if clientRepository.ExistsByEmail(dto.email) {
        return Failure(EmailExists(EMAIL_IN_USE_ERROR));
      } else if clientRepository.ExistsByUsername(dto.username) {
        return Failure(UsernameExists(USERNAME_IN_USE_ERROR));
      }
      if saveFails {
        return Failure(Runtime(REGISTRATION_FAILED_MESSAGE));
      }
      var client := Client(newId, dto.email, encode(dto.password), dto.name, dto.username, Some(now), None, USER);
      clientRepository.Save(client);
      r := Success(client);
    }

    /**
     * `loadUserByUsername`: the stored client rebuilt with a single authority,
     * the role's name; an unknown username is refused. The source spells the
     * message as a literal, with the same text as CLIENT_NOT_FOUND_ERROR.
     */
    function LoadUserByUsername(username: string): (r: Result<Client, Error>)
      reads clientRepository
      requires clientRepository.Valid()
      ensures r.Failure? <==> forall id :: id in clientRepository.clients ==> clientRepository.clients[id].username != username
      ensures r.Failure? ==> r.error == UsernameNotFound(CLIENT_NOT_FOUND_ERROR)
      ensures r.Success? ==>
                && r.value.id in clientRepository.clients
                && r.value.username == username
                && r.value == clientRepository.clients[r.value.id].(authorities := Some([RoleName(r.value.role)]))
    {
      match clientRepository.FindByUsername(username)
      case None => Failure(UsernameNotFound(CLIENT_NOT_FOUND_ERROR))
      case Some(c) => Success(Client(c.id, c.email, c.password, c.name, c.username, c.createdAt, Some([RoleName(c.role)]), c.role))
    }
  }

  // ---------------------------------------------------------------------------
  // The inputs of ClientServiceTests
  // ---------------------------------------------------------------------------

  lemma ShortPasswordRejected()
    ensures !IsValidPassword("12345")
  {
  }

  /** An address without '@' is refused. */
  lemma NoAtRejected(email: string)
    requires '@' !in email
    ensures !IsValidEmail(email)
  {
  }
}
