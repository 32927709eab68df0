/**
 * The authentication service: a user table reached over HTTP, two browser storage
 * areas ("local", which survives a browser restart, and "session", which lasts as
 * long as the tab) each holding an `authToken` and a `userData` entry, and the
 * authenticated flag that the rest of the application observes.
 */
module Auth {
  import opened Wrappers
  import opened Seqs
  import opened Strings

  /** A user record as the backend stores it. */
  datatype User = User(id: int, email: string, password: string, firstName: string, lastName: string, token: string)

  /** The two entries the service keeps in one storage area; None is a key that is not set. */
  datatype Store = Store(authToken: Option<string>, userData: Option<User>)

  const EmptyStore := Store(None, None)

  /** The storage area after `setItem('authToken', u.token)` and `setItem('userData', u)`. */
  function SignedIn(u: User): Store {
    Store(Some(u.token), Some(u))
  }

  /** A stored string that JavaScript treats as true: present and not empty. */
  predicate Truthy(v: Option<string>) {
    v.Some? && v.value != ""
  }

  datatype AuthError = InvalidCredentials | RegistrationFailed(message: string)

  /** What the backend answers to `GET /users?email=..&password=..`: the users matching both, in table order. */
  function MatchingUsers(table: seq<User>, email: string, password: string): seq<User> {
    Keep(table, (u: User) => u.email == email && u.password == password)
  }

  /**
   * The answer holds exactly the users of the table whose email and password both
   * match, in table order; the first one, which `login` uses, is the earliest match.
   */
  lemma MatchingUsersFirst(table: seq<User>, email: string, password: string)
    ensures forall u :: u in MatchingUsers(table, email, password) ==> u in table && u.email == email && u.password == password
    ensures forall i :: 0 <= i < |table| && table[i].email == email && table[i].password == password ==>
              table[i] in MatchingUsers(table, email, password)
    ensures MatchingUsers(table, email, password) != [] ==>
              exists i :: 0 <= i < |table| && table[i] == MatchingUsers(table, email, password)[0] &&
                forall j :: 0 <= j < i ==> !(table[j].email == email && table[j].password == password)
  {
    var p := (u: User) => u.email == email && u.password == password;
    var idx := KeepPositions(table, p);
    forall i | 0 <= i < |table| && p(table[i])
      ensures table[i] in MatchingUsers(table, email, password)
    {
      var k :| 0 <= k < |idx| && idx[k] == i;
      assert Keep(table, p)[k] == table[i];
    }
    if MatchingUsers(table, email, password) != [] {
      var i := idx[0];
      assert forall k :: 0 <= k < |idx| ==> i <= idx[k];
      assert forall j :: 0 <= j < i ==> j !in idx;
    }
  }

  /** The data sent to `POST /users` on registration. */
  datatype Registration = Registration(email: string, password: string, firstName: string, lastName: string)

  /** The record the service builds and posts: the registration data plus a fresh token. */
  datatype NewUser = NewUser(email: string, password: string, firstName: string, lastName: string, token: string)

  /** A failed HTTP call: the message in the response body, if any, and the transport message. */
  datatype HttpError = HttpError(bodyMessage: Option<string>, message: string)

  /** `text.substr(2, 9)`: at most nine characters, starting at the third. */
  function RandomSuffix(text: string): (r: string)
    ensures |r| <= 9
    ensures |text| >= 11 ==> r == text[2..11]
    ensures |text| <= 2 ==> r == ""
    ensures 2 < |text| < 11 ==> r == text[2..]
  {
    var start := if |text| < 2 then |text| else 2;
    var end := if |text| < 11 then |text| else 11;
    text[start..end]
  }

  /** `'token-' + now + '-' + suffix`, where `randomText` is `Math.random().toString(36)`. */
  function MakeToken(now: nat, randomText: string): string {
    "token-" + NatToString(now) + "-" + RandomSuffix(randomText)
  }

  /** The position of the first '-' in `s`, or |s| when there is none. */
  function FirstDash(s: string): (i: nat)
    ensures i <= |s|
    ensures i < |s| ==> s[i] == '-'
    ensures forall j :: 0 <= j < i ==> s[j] != '-'
  {
    if s == [] then 0 else if s[0] == '-' then 0 else 1 + FirstDash(s[1..])
  }

  /**
   * Splits a token into its issue time and its random suffix; None when it does
   * not have the shape `MakeToken` writes (the time in decimal without leading
   * zeros, then a '-').
   */
  function ParseToken(token: string): Option<(nat, string)> {
    if !("token-" <= token) then None
    else
      var rest := token[6..];
      var d := FirstDash(rest);
      if d == 0 || d == |rest| || !AllDigits(rest[..d]) || (d > 1 && rest[0] == '0') then None
      else Some((ParseNat(rest[..d]), rest[d + 1..]))
  }

  /** A token that parses is exactly the token built from what it parses to. */
  lemma ParseTokenMakes(token: string)
    requires ParseToken(token).Some?
    ensures token == "token-" + NatToString(ParseToken(token).value.0) + "-" + ParseToken(token).value.1
  {
    var rest := token[6..];
    var d := FirstDash(rest);
    NatToStringParseNat(rest[..d]);
    assert rest == rest[..d] + "-" + rest[d + 1..];
    assert token == "token-" + rest;
  }

  /** Two tokens that parse to the same time and suffix are the same token. */
  lemma ParseTokenInjective(t1: string, t2: string)
    requires ParseToken(t1).Some? && ParseToken(t1) == ParseToken(t2)
    ensures t1 == t2
  {
    ParseTokenMakes(t1);
    ParseTokenMakes(t2);
  }

  /** A token records the time it was issued at and its suffix, and both can be read back. */
  lemma MakeTokenParses(now: nat, randomText: string)
    ensures ParseToken(MakeToken(now, randomText)) == Some((now, RandomSuffix(randomText)))
  {
    var digits := NatToString(now);
    var suffix := RandomSuffix(randomText);
    var token := MakeToken(now, randomText);
    assert token == "token-" + (digits + "-" + suffix);
    var rest := token[6..];
    assert rest == digits + "-" + suffix;
    assert forall j :: 0 <= j < |digits| ==> rest[j] == digits[j] && rest[j] != '-';
    DashAfterDigits(rest, |digits|);
    assert rest[..|digits|] == digits;
    assert rest[|digits| + 1..] == suffix;
    ParseNatToString(now);
  }

  lemma DashAfterDigits(s: string, n: nat)
    requires n < |s| && s[n] == '-'
    requires forall j :: 0 <= j < n ==> s[j] != '-'
    ensures FirstDash(s) == n
  {
  }

  /** The record `register` posts: the user's fields copied unchanged and a token issued at `now`. */
  function RegistrationData(input: Registration, now: nat, randomText: string): (r: NewUser)
    ensures r.email == input.email && r.password == input.password
    ensures r.firstName == input.firstName && r.lastName == input.lastName
    ensures r.token == "token-" + NatToString(now) + "-" + RandomSuffix(randomText)
    ensures ParseToken(r.token) == Some((now, RandomSuffix(randomText)))
  {
    MakeTokenParses(now, randomText);
    NewUser(input.email, input.password, input.firstName, input.lastName, MakeToken(now, randomText))
  }

  /**
   * What a caller of `register` receives for the backend's answer: the created
   * record, or an error whose message names the body's message when it has a
   * non-empty one and the transport message otherwise.
   */
  function RegistrationOutcome(response: Result<User, HttpError>): (r: Result<User, AuthError>)
    ensures response.Success? ==> r == Success(response.value)
    ensures response.Failure? ==> r.Failure? && r.error.RegistrationFailed?
    ensures response.Failure? && Truthy(response.error.bodyMessage) ==>
              r.error.message == "Registration failed: " + response.error.bodyMessage.value
    ensures response.Failure? && !Truthy(response.error.bodyMessage) ==>
              r.error.message == "Registration failed: " + response.error.message
  {
    match response
    case Success(created) => Success(created)
    case Failure(e) =>
      var reason := if Truthy(e.bodyMessage) then e.bodyMessage.value else e.message;
      Failure(RegistrationFailed("Registration failed: " + reason))
  }

  class AuthService {
    var local: Store
    var session: Store
    var authenticated: bool

    /** The service starts over whatever the two storage areas already hold. */
    constructor (localArea: Store, sessionArea: Store)
      ensures local == localArea && session == sessionArea
      ensures authenticated == Truthy(localArea.authToken)
    {
      local := localArea;
      session := sessionArea;
      authenticated := Truthy(localArea.authToken);
    }

    /** The startup check: authenticated exactly when the local area holds a non-empty token. */
    method CheckAuthStatus()
      modifies this
      ensures authenticated == Truthy(local.authToken)
      ensures local == old(local) && session == old(session)
    {
      authenticated := Truthy(local.authToken);
    }

    /**
     * Logs in against the backend's user `table`. With no matching user it fails
     * and changes nothing; otherwise it signs in the first match in the local area
     * when `rememberMe` holds and in the session area when not, leaving the other
     * area as it was.
     */
    method Login(table: seq<User>, email: string, password: string, rememberMe: bool)
      returns (r: Result<User, AuthError>)
      modifies this
      ensures MatchingUsers(table, email, password) == [] ==>
                r == Failure(InvalidCredentials) &&
                local == old(local) && session == old(session) && authenticated == old(authenticated)
      ensures MatchingUsers(table, email, password) != [] ==>
                r == Success(MatchingUsers(table, email, password)[0]) && authenticated
      ensures r.Success? && rememberMe ==> local == SignedIn(r.value) && session == old(session)
      ensures r.Success? && !rememberMe ==> session == SignedIn(r.value) && local == old(local)
      ensures r.Success? && rememberMe ==> GetUserData() == Some(r.value)
      ensures r.Success? && rememberMe && r.value.token != "" ==> GetToken() == Some(r.value.token)
      ensures r.Success? && !rememberMe && !Truthy(old(local.authToken)) ==> GetToken() == Some(r.value.token)
      ensures r.Success? && !rememberMe && Truthy(old(local.authToken)) ==> GetToken() == old(local.authToken)
    {
      var users := MatchingUsers(table, email, password);
      if |users| == 0 {
        return Failure(InvalidCredentials);
      }
      var user := users[0];
      if rememberMe {
        local := SignedIn(user);
      } else {
        session := SignedIn(user);
      }
      authenticated := true;
      r := Success(user);
    }

    /**
     * Builds the registration record with a token issued at `now` and posts it with
     * `post`, the backend's answer to `POST /users`. The service's state is not touched.
     */
    method Register(input: Registration, now: nat, randomText: string, post: NewUser -> Result<User, HttpError>)
      returns (sent: NewUser, r: Result<User, AuthError>)
      ensures sent.email == input.email && sent.password == input.password
      ensures sent.firstName == input.firstName && sent.lastName == input.lastName
      ensures sent.token == "token-" + NatToString(now) + "-" + RandomSuffix(randomText)
      ensures ParseToken(sent.token) == Some((now, RandomSuffix(randomText)))
      ensures r == RegistrationOutcome(post(sent))
    {
      sent := RegistrationData(input, now, randomText);
      r := RegistrationOutcome(post(sent));
    }

    /** Removes both entries from both areas and clears the flag. */
    method Logout()
      modifies this
      ensures local == EmptyStore && session == EmptyStore && !authenticated
      ensures GetToken() == None && GetUserData() == None
    {
      local := EmptyStore;
      session := EmptyStore;
      authenticated := false;
    }

    /** The local token when it is present and not empty, otherwise whatever the session area holds. */
    function GetToken(): (r: Option<string>)
      reads this
      ensures Truthy(local.authToken) ==> r == local.authToken
      ensures !Truthy(local.authToken) ==> r == session.authToken
      ensures r == None <==> !Truthy(local.authToken) && session.authToken == None
    {
      if Truthy(local.authToken) then local.authToken else session.authToken
    }

    /** The user stored in the local area, otherwise the one in the session area, otherwise None. */
    function GetUserData(): (r: Option<User>)
      reads this
      ensures local.userData.Some? ==> r == local.userData
      ensures local.userData == None ==> r == session.userData
      ensures r == None <==> local.userData == None && session.userData == None
    {
      if local.userData.Some? then local.userData else session.userData
    }
  }
}
