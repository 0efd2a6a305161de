/** The session held by the authentication context
    (src/store/AuthContext.tsx): the user restored at start-up, the
    privilege list normalised by login, logout, and the privilege check
    every route and link relies on. The login request, the JSON parser and
    browser storage are outside the model: their outcomes are parameters. */
module Auth {
  import opened Common

  /** A JSON value as far as the privilege list needs it. */
  datatype Json = JString(s: string) | JArray(items: seq<Json>) | JOther

  /** The session user. The privilege array may hold values that are not
      strings; they never equal a privilege name. */
  datatype User = User(id: nat, username: string, name: string, role: string, status: string,
                       privileges: seq<Json>)

  /** `privileges` as the login answer carries it: text, with what
      JSON.parse makes of it (None when it throws), or an already-decoded
      value. */
  datatype RawPrivileges = Text(text: string, parsed: Option<Json>) | Decoded(value: Json)

  datatype RawUser = RawUser(id: nat, username: string, name: string, role: string, status: string,
                             privileges: RawPrivileges)

  /** What login receives: an HTTP error, or a body with its `success`
      flag and `data.user`. */
  datatype LoginAnswer = HttpError | Body(success: bool, user: Option<RawUser>)

  /** What start-up finds under the "user" key. */
  datatype Stored = Absent | Unparsable | Parsed(user: User)

  /** The two steps of login on the privileges: parse a string, then keep
      the value only if it is an array. */
  function NormalizePrivileges(raw: RawPrivileges): (r: seq<Json>)
    ensures raw.Text? && raw.parsed.None? ==> r == []
    ensures raw.Text? && raw.parsed.Some? && raw.parsed.value.JArray? ==> r == raw.parsed.value.items
    ensures raw.Text? && raw.parsed.Some? && !raw.parsed.value.JArray? ==> r == []
    ensures raw.Decoded? && raw.value.JArray? ==> r == raw.value.items
    ensures raw.Decoded? && !raw.value.JArray? ==> r == []
  {
    var afterParse := match raw
      case Text(_, parsed) => if parsed.Some? then parsed.value else JArray([])
      case Decoded(v) => v;
    if afterParse.JArray? then afterParse.items else []
  }

  function FromRaw(u: RawUser): User
  {
    User(u.id, u.username, u.name, u.role, u.status, NormalizePrivileges(u.privileges))
  }

  /** hasPrivilege on a possibly absent user. */
  predicate UserHasPrivilege(user: Option<User>, privilege: string)
  {
    user.Some? && (user.value.role == "admin" || JString(privilege) in user.value.privileges)
  }

  /** The three rules of hasPrivilege: no user has nothing, an admin has
      everything, anyone else has exactly the listed names. */
  lemma PrivilegeRules(user: Option<User>, privilege: string)
    ensures user.None? ==> !UserHasPrivilege(user, privilege)
    ensures user.Some? && user.value.role == "admin" ==> UserHasPrivilege(user, privilege)
    ensures user.Some? && user.value.role != "admin" ==>
              (UserHasPrivilege(user, privilege) <==>
               exists i | 0 <= i < |user.value.privileges| :: user.value.privileges[i] == JString(privilege))
  {
    if user.Some? && user.value.role != "admin" && JString(privilege) in user.value.privileges {
      var i :| 0 <= i < |user.value.privileges| && user.value.privileges[i] == JString(privilege);
    }
  }

  /** A privilege text that JSON cannot read, or that is not an array,
      grants a non-admin nothing. */
  lemma UnreadablePrivilegesGrantNothing(u: RawUser, privilege: string)
    requires u.role != "admin"
    requires u.privileges.Text? && (u.privileges.parsed.None? || !u.privileges.parsed.value.JArray?)
    ensures !UserHasPrivilege(Some(FromRaw(u)), privilege)
  {
  }

  class AuthProvider {
    var user: Option<User>
    var isLoading: bool

    constructor ()
      ensures user.None? && isLoading
    {
      user := None;
      isLoading := true;
    }

    predicate IsAuthenticated()
      reads this
    {
      user.Some?
    }

    predicate HasPrivilege(privilege: string)
      reads this
    {
      UserHasPrivilege(user, privilege)
    }

    /** The start-up effect: a stored user is restored as it was saved, an
        unreadable one is dropped; loading ends either way. */
    method Restore(stored: Stored)
      modifies this
      ensures stored.Parsed? ==> user == Some(stored.user)
      ensures !stored.Parsed? ==> user == old(user)
      ensures !isLoading
    {
      if stored.Parsed? {
        user := Some(stored.user);
      }
      isLoading := false;
    }

    /** login: an HTTP error, a body without success or without a user
        throws and leaves the session as it was; otherwise the user, with
        the privileges normalised, becomes the session user. */
    method Login(answer: LoginAnswer) returns (succeeded: bool)
      modifies this
      ensures succeeded <==> answer.Body? && answer.success && answer.user.Some?
      ensures succeeded ==> user == Some(FromRaw(answer.user.value))
      ensures !succeeded ==> user == old(user)
      ensures isLoading == old(isLoading)
    {
      if answer.HttpError? || !answer.success || answer.user.None? {
        return false;
      }
      user := Some(FromRaw(answer.user.value));
      succeeded := true;
    }

    /** logout: the session user is cleared. */
    method Logout()
      modifies this
      ensures user.None? && isLoading == old(isLoading)
      ensures !IsAuthenticated()
      ensures forall p :: !HasPrivilege(p)
    {
      user := None;
    }
  }

  /** After a successful login the user holds a privilege exactly when it
      is an admin or the normalised list names it. */
  method LoginThenCheck(auth: AuthProvider, answer: LoginAnswer, privilege: string) returns (granted: bool)
    modifies auth
    ensures answer.Body? && answer.success && answer.user.Some? ==>
              (granted <==> answer.user.value.role == "admin" ||
                            JString(privilege) in NormalizePrivileges(answer.user.value.privileges))
    ensures !(answer.Body? && answer.success && answer.user.Some?) ==> granted == old(auth.HasPrivilege(privilege))
  {
    var ok := auth.Login(answer);
    granted := auth.HasPrivilege(privilege);
  }
}
