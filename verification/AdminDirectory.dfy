/**
 Who may use the operator console (server/admin-users.ts:59-242): administrators
 with tokens and passkeys, and the sessions that passkeys open.
 */
module AdminDirectory {

  import opened Text
  import opened OrderedMap

  const ADMIN_SESSION_TTL_MS := 8 * 60 * 60 * 1000
  const MAX_USERS := 100
  const MAX_SESSIONS := 1_000
  const KEPT := 10

  /** SHA-256 as a function on texts. */
  type Hash = string -> string

  datatype Role = Owner | Operator | Auditor

  datatype Via = EnvToken | ByToken | ByPasskey

  datatype Principal = Principal(name: string, role: Role, via: Via)

  /** The environment's tokens: the original single one, and the named ones by hash. */
  datatype Env = Env(legacy: string, tokens: map<string, Principal>)

  datatype Token = Token(id: string, hash: string, title: string, createdAt: int, lastUsedAt: int)

  datatype Passkey = Passkey(credentialId: string, signCount: int, title: string, createdAt: int, lastUsedAt: int)

  datatype User = User(
    name: string, role: Role, createdAt: int, disabled: bool, tokens: seq<Token>, passkeys: seq<Passkey>)

  datatype Session = Session(name: string, expiresAt: int)

  type Users = Table<string, User>

  type Sessions = Table<string, Session>

  datatype State = State(users: Users, sessions: Sessions)

  predicate NameChar(c: char) { IsLower(c) || IsDigit(c) }

  predicate GoodName(name: string) {
    2 <= |name| <= 32 && NameChar(name[0]) && forall i | 1 <= i < |name| :: NameChar(name[i]) || name[i] in "._-"
  }

  function LabelOr(title: string, other: string): string {
    var short := if |title| > 40 then title[..40] else title;
    if short == "" then other else short
  }

  /** `list.slice(-10)` */
  function Newest<T>(s: seq<T>): (r: seq<T>)
    ensures |r| <= KEPT
  {
    if |s| > KEPT then s[|s| - KEPT..] else s
  }

  // ---------------------------------------------------------------- looking up

  predicate HasToken(u: User, hash: string) { exists i | 0 <= i < |u.tokens| :: u.tokens[i].hash == hash }

  predicate HasPasskey(u: User, credential: string) {
    exists i | 0 <= i < |u.passkeys| :: u.passkeys[i].credentialId == credential
  }

  /** The first enabled administrator with a token of this hash. */
  function Holder(users: Users, hash: string): Option<string> {
    if users == [] then None
    else if !users[0].value.disabled && HasToken(users[0].value, hash) then Some(users[0].key)
    else Holder(users[1..], hash)
  }

  /** The first administrator with this passkey. */
  function PasskeyHolder(users: Users, credential: string): Option<string> {
    if users == [] then None
    else if HasPasskey(users[0].value, credential) then Some(users[0].key)
    else PasskeyHolder(users[1..], credential)
  }

  function Touched(tokens: seq<Token>, hash: string, now: int): seq<Token> {
    if tokens == [] then []
    else if tokens[0].hash == hash then [tokens[0].(lastUsedAt := now)] + tokens[1..]
    else [tokens[0]] + Touched(tokens[1..], hash, now)
  }

  function Used(passkeys: seq<Passkey>, credential: string, signCount: int, now: int): seq<Passkey> {
    if passkeys == [] then []
    else if passkeys[0].credentialId == credential
    then [passkeys[0].(signCount := signCount, lastUsedAt := now)] + passkeys[1..]
    else [passkeys[0]] + Used(passkeys[1..], credential, signCount, now)
  }

  function WithoutToken(tokens: seq<Token>, id: string): (r: seq<Token>)
    ensures |r| <= |tokens|
  {
    if tokens == [] then [] else (if tokens[0].id != id then [tokens[0]] else []) + WithoutToken(tokens[1..], id)
  }

  function WithoutPasskey(passkeys: seq<Passkey>, credential: string): (r: seq<Passkey>)
    ensures |r| <= |passkeys|
  {
    if passkeys == [] then []
    else
      (if passkeys[0].credentialId != credential then [passkeys[0]] else [])
      + WithoutPasskey(passkeys[1..], credential)
  }

  function NotOf(name: string): Entry<string, Session> -> bool { (e: Entry<string, Session>) => e.value.name != name }

  // ---------------------------------------------------------------- what each call does

  /** The token that `authenticate` reads from a header. */
  function TokenIn(header: Option<string>): Option<string> {
    if header.None? || !StartsWith(header.value, "Bearer ") then None
    else
      var token := Trim(header.value[7..]);
      if token == "" || |token| > 256 then None else Some(token)
  }

  datatype Signed = Signed(state: State, principal: Option<Principal>)

  /** A session that is over, or whose administrator is gone, is deleted when it is shown. */
  function SessionUser(s: State, hash: string, now: int): Option<User> {
    match Get(s.sessions, hash)
    case None => None
    case Some(x) =>
      match Get(s.users, x.name)
      case None => None
      case Some(u) => if x.expiresAt > now && !u.disabled then Some(u) else None
  }

  function ByHash(s: State, hash: string, now: int): Signed {
    match SessionUser(s, hash, now)
    case Some(u) => Signed(s, Some(Principal(u.name, u.role, ByPasskey)))
    case None =>
      var t := s.(sessions := Delete(s.sessions, hash));
      match Holder(s.users, hash)
      case None => Signed(t, None)
      case Some(name) =>
        match Get(s.users, name)
        case None => Signed(t, None)
        case Some(u) =>
          Signed(t.(users := Put(s.users, name, u.(tokens := Touched(u.tokens, hash, now)))),
                 Some(Principal(u.name, u.role, ByToken)))
  }

  function Authenticated(sha: Hash, env: Env, s: State, header: Option<string>, now: int): Signed {
    match TokenIn(header)
    case None => Signed(s, None)
    case Some(token) =>
      if env.legacy != "" && sha(token) == sha(env.legacy) then Signed(s, Some(Principal("admin", Owner, EnvToken)))
      else if |token| < 16 then Signed(s, None)
      else if sha(token) in env.tokens then Signed(s, Some(env.tokens[sha(token)]))
      else ByHash(s, sha(token), now)
  }

  datatype Refusal = BadName | Taken | TooMany

  function CreateRefused(s: State, name: string): Option<Refusal> {
    if !GoodName(name) then Some(BadName)
    else if name == "admin" || Has(s.users, name) then Some(Taken)
    else if |s.users| >= MAX_USERS then Some(TooMany)
    else None
  }

  function Created(s: State, name: string, role: Role, now: int): State {
    if CreateRefused(s, name).Some? then s
    else s.(users := Put(s.users, name, User(name, role, now, false, [], [])))
  }

  function Patched(u: User, role: Option<Role>, disabled: Option<bool>): User {
    u.(role := if role.Some? then role.value else u.role,
       disabled := if disabled.Some? then disabled.value else u.disabled)
  }

  function Updated(s: State, name: string, role: Option<Role>, disabled: Option<bool>): State {
    match Get(s.users, name)
    case None => s
    case Some(u) =>
      var v := Patched(u, role, disabled);
      State(Put(s.users, name, v), if v.disabled then Keep(s.sessions, NotOf(name)) else s.sessions)
  }

  function Removed(s: State, name: string): State {
    State(Delete(s.users, name), Keep(s.sessions, NotOf(name)))
  }

  function ChangeTokens(s: State, name: string, tokens: seq<Token>): State {
    match Get(s.users, name)
    case None => s
    case Some(u) => s.(users := Put(s.users, name, u.(tokens := tokens)))
  }

  function ChangePasskeys(s: State, name: string, passkeys: seq<Passkey>): State {
    match Get(s.users, name)
    case None => s
    case Some(u) => s.(users := Put(s.users, name, u.(passkeys := passkeys)))
  }

  /** A new token from random characters. */
  function Issued(sha: Hash, s: State, name: string, title: string, random: string, id: string, now: int): State {
    match Get(s.users, name)
    case None => s
    case Some(u) =>
      ChangeTokens(s, name, Newest(u.tokens + [Token(id, sha("m5a_" + random), LabelOr(title, "token"), now, 0)]))
  }

  function Revoked(s: State, name: string, id: string): State {
    match Get(s.users, name) { case None => s case Some(u) => ChangeTokens(s, name, WithoutToken(u.tokens, id)) }
  }

  function PasskeyAdded(s: State, name: string, credential: string, signCount: int, title: string, now: int): State {
    match Get(s.users, name)
    case None => s
    case Some(u) =>
      if PasskeyHolder(s.users, credential).Some? then s
      else
        var added := Passkey(credential, signCount, LabelOr(title, "passkey"), now, 0);
        ChangePasskeys(s, name, Newest(u.passkeys + [added]))
  }

  function PasskeyRemoved(s: State, name: string, credential: string): State {
    match Get(s.users, name)
    case None => s
    case Some(u) => ChangePasskeys(s, name, WithoutPasskey(u.passkeys, credential))
  }

  /** A new session goes to the end; the first one goes when there are more than a thousand. */
  function SessionPut(t: Sessions, hash: string, x: Session): Sessions {
    var more := Put(t, hash, x);
    if |more| > MAX_SESSIONS then more[1..] else more
  }

  /** The administrator whom a passkey signs in. */
  function PasskeyUser(s: State, credential: string): Option<User> {
    match PasskeyHolder(s.users, credential)
    case None => None
    case Some(name) =>
      match Get(s.users, name) { case None => None case Some(u) => if u.disabled then None else Some(u) }
  }

  function SignedIn(sha: Hash, s: State, credential: string, signCount: int, random: string, now: int): State {
    match PasskeyUser(s, credential)
    case None => s
    case Some(u) =>
      var used := Used(u.passkeys, credential, signCount, now);
      var t := ChangePasskeys(s, PasskeyHolder(s.users, credential).value, used);
      t.(sessions := SessionPut(s.sessions, sha("m5s_" + random), Session(u.name, now + ADMIN_SESSION_TTL_MS)))
  }

  /** `header.replace(/^Bearer\s+/, "")` */
  function EndToken(header: string): string {
    if StartsWith(header, "Bearer") && |header| > 6 && IsSpace(header[6]) then TrimStart(header[6..]) else header
  }

  function Ended(sha: Hash, s: State, header: string): State {
    s.(sessions := Delete(s.sessions, sha(EndToken(header))))
  }

  // ---------------------------------------------------------------- the directory

  class Directory {
    const sha: Hash
    var users: Table<string, User>
    var sessions: Table<string, Session>

    constructor (sha: Hash, loaded: Users)
      ensures this.sha == sha && Now() == State(loaded, [])
    {
      this.sha := sha;
      users, sessions := loaded, [];
    }

    function Now(): State
      reads this
    {
      State(users, sessions)
    }

    method Authenticate(env: Env, authorization: Option<string>, now: int) returns (principal: Option<Principal>)
      modifies this
      ensures Signed(Now(), principal) == Authenticated(sha, env, old(Now()), authorization, now)
    {
      var header := if authorization.Some? then authorization.value else "";
      if !StartsWith(header, "Bearer ") {
        return None;
      }
      var token := Trim(header[7..]);
      if token == "" || |token| > 256 {
        return None;
      }
      if env.legacy != "" && sha(token) == sha(env.legacy) {
        return Some(Principal("admin", Owner, EnvToken));
      }
      if |token| < 16 {
        return None;
      }
      var hash := sha(token);
      if hash in env.tokens {
        return Some(env.tokens[hash]);
      }
      principal := FromHash(hash, now);
    }

    /** The second half of `authenticate`: sessions, then the tokens of one administrator after another. */
    method FromHash(hash: string, now: int) returns (principal: Option<Principal>)
      modifies this
      ensures Signed(Now(), principal) == ByHash(old(Now()), hash, now)
    {
      var session := Get(sessions, hash);
      if session.Some? {
        var user := Get(users, session.value.name);
        if session.value.expiresAt > now && user.Some? && !user.value.disabled {
          return Some(Principal(user.value.name, user.value.role, ByPasskey));
        }
        sessions := Delete(sessions, hash);
      } else {
        DeleteNone(sessions, hash);
      }
      principal := FromTokens(hash, now);
    }

    method FromTokens(hash: string, now: int) returns (principal: Option<Principal>)
      modifies this`users
      ensures match Holder(old(users), hash)
              case None => users == old(users) && principal == None
              case Some(name) =>
                match Get(old(users), name)
                case None => users == old(users) && principal == None
                case Some(u) =>
                  users == Put(old(users), name, u.(tokens := Touched(u.tokens, hash, now)))
                  && principal == Some(Principal(u.name, u.role, ByToken))
    {
      var i := 0;
      while i < |users|
        invariant 0 <= i <= |users| && Holder(users[i..], hash) == Holder(users, hash)
      {
        var user := users[i].value;
        assert users[i..][1..] == users[i + 1..];
        if !user.disabled && HasToken(user, hash) {
          var name := users[i].key;
          FirstHolder(users, i);
          user := Get(users, name).value;
          users := Put(users, name, user.(tokens := Touched(user.tokens, hash, now)));
          return Some(Principal(user.name, user.role, ByToken));
        }
        i := i + 1;
      }
      return None;
    }

    method Create(name: string, role: Role, now: int) returns (refused: Option<Refusal>)
      modifies this
      ensures Now() == Created(old(Now()), name, role, now) && refused == CreateRefused(old(Now()), name)
    {
      if !GoodName(name) {
        return Some(BadName);
      }
      if name == "admin" || Has(users, name) {
        return Some(Taken);
      }
      if |users| >= MAX_USERS {
        return Some(TooMany);
      }
      users := Put(users, name, User(name, role, now, false, [], []));
      return None;
    }

    /** The loop that ends every session of one administrator. */
    method EndSessionsOf(name: string)
      modifies this`sessions
      ensures sessions == Keep(old(sessions), NotOf(name))
    {
      var i := 0;
      assert sessions[..0] == [];
      while i < |sessions|
        invariant 0 <= i <= |sessions|
        invariant sessions[..i] + Keep(sessions[i..], NotOf(name)) == Keep(old(sessions), NotOf(name))
        decreases |sessions| - i
      {
        ghost var before := sessions;
        KeepFirst(sessions[i..], NotOf(name));
        assert sessions[i..][1..] == sessions[i + 1..];
        if sessions[i].value.name == name {
          sessions := sessions[..i] + sessions[i + 1..];
          assert sessions[..i] == before[..i] && sessions[i..] == before[i + 1..];
        } else {
          assert sessions[..i + 1] == sessions[..i] + [sessions[i]];
          Associative(sessions[..i], [sessions[i]], Keep(sessions[i + 1..], NotOf(name)));
          i := i + 1;
        }
      }
      assert sessions[..i] == sessions;
    }

    method Update(name: string, role: Option<Role>, disabled: Option<bool>) returns (ok: bool)
      modifies this
      ensures Now() == Updated(old(Now()), name, role, disabled) && ok == Has(old(users), name)
    {
      var found := Get(users, name);
      if found.None? {
        return false;
      }
      var user := found.value;
      if role.Some? {
        user := user.(role := role.value);
      }
      if disabled.Some? {
        user := user.(disabled := disabled.value);
      }
      users := Put(users, name, user);
      if user.disabled {
        EndSessionsOf(name);
      }
      return true;
    }

    method Remove(name: string) returns (removed: bool)
      modifies this
      ensures Now() == Removed(old(Now()), name) && removed == Has(old(users), name)
    {
      removed := Has(users, name);
      users := Delete(users, name);
      EndSessionsOf(name);
    }

    method IssueToken(name: string, title: string, random: string, id: string, now: int) returns (token: Option<string>)
      modifies this
      ensures Now() == Issued(sha, old(Now()), name, title, random, id, now)
      ensures token == if Has(old(users), name) then Some("m5a_" + random) else None
    {
      var found := Get(users, name);
      if found.None? {
        return None;
      }
      var user := found.value;
      var text := "m5a_" + random;
      user := user.(tokens := Newest(user.tokens + [Token(id, sha(text), LabelOr(title, "token"), now, 0)]));
      users := Put(users, name, user);
      return Some(text);
    }

    method RevokeToken(name: string, id: string) returns (ok: bool)
      modifies this
      ensures Now() == Revoked(old(Now()), name, id)
      ensures ok <==>
              exists u :: Get(old(users), name) == Some(u) && exists i | 0 <= i < |u.tokens| :: u.tokens[i].id == id
    {
      var found := Get(users, name);
      if found.None? {
        return false;
      }
      var user := found.value;
      var before := |user.tokens|;
      WithoutTokenSize(user.tokens, id);
      user := user.(tokens := WithoutToken(user.tokens, id));
      users := Put(users, name, user);
      return |user.tokens| != before;
    }

    method AddPasskey(name: string, credential: string, signCount: int, title: string, now: int) returns (ok: bool)
      modifies this
      ensures Now() == PasskeyAdded(old(Now()), name, credential, signCount, title, now)
      ensures ok <==> Has(old(users), name) && PasskeyHolder(old(users), credential).None?
    {
      var found := Get(users, name);
      if found.None? {
        return false;
      }
      var taken := ByCredential(credential);
      if taken.Some? {
        return false;
      }
      var user := found.value;
      var added := Passkey(credential, signCount, LabelOr(title, "passkey"), now, 0);
      user := user.(passkeys := Newest(user.passkeys + [added]));
      users := Put(users, name, user);
      return true;
    }

    method RemovePasskey(name: string, credential: string)
      modifies this
      ensures Now() == PasskeyRemoved(old(Now()), name, credential)
    {
      var found := Get(users, name);
      if found.Some? {
        var user := found.value;
        users := Put(users, name, user.(passkeys := WithoutPasskey(user.passkeys, credential)));
      }
    }

    method ByCredential(credential: string) returns (name: Option<string>)
      ensures name == PasskeyHolder(users, credential)
    {
      var i := 0;
      while i < |users|
        invariant 0 <= i <= |users| && PasskeyHolder(users[i..], credential) == PasskeyHolder(users, credential)
      {
        assert users[i..][1..] == users[i + 1..];
        if HasPasskey(users[i].value, credential) {
          return Some(users[i].key);
        }
        i := i + 1;
      }
      return None;
    }

    method PasskeySignIn(credential: string, signCount: int, random: string, now: int)
      returns (token: Option<string>, principal: Option<Principal>)
      modifies this
      ensures Now() == SignedIn(sha, old(Now()), credential, signCount, random, now)
      ensures match PasskeyUser(old(Now()), credential)
              case None => token == None && principal == None
              case Some(u) => token == Some("m5s_" + random) && principal == Some(Principal(u.name, u.role, ByPasskey))
    {
      var name := ByCredential(credential);
      if name.None? {
        return None, None;
      }
      var found := Get(users, name.value);
      if found.None? || found.value.disabled {
        return None, None;
      }
      var user := found.value;
      users := Put(users, name.value, user.(passkeys := Used(user.passkeys, credential, signCount, now)));
      var text := "m5s_" + random;
      sessions := Put(sessions, sha(text), Session(user.name, now + ADMIN_SESSION_TTL_MS));
      if |sessions| > MAX_SESSIONS {
        sessions := sessions[1..];
      }
      return Some(text), Some(Principal(user.name, user.role, ByPasskey));
    }

    method EndSession(authorization: Option<string>)
      modifies this
      ensures Now() == Ended(sha, old(Now()), if authorization.Some? then authorization.value else "")
    {
      var token := EndToken(if authorization.Some? then authorization.value else "");
      sessions := Delete(sessions, sha(token));
    }
  }

  lemma FirstHolder(users: Users, i: nat)
    requires i < |users|
    ensures Has(users, users[i].key)
  {}

  lemma {:induction false} WithoutTokenSize(tokens: seq<Token>, id: string)
    ensures |WithoutToken(tokens, id)| == |tokens| <==> forall i | 0 <= i < |tokens| :: tokens[i].id != id
  {
    if tokens != [] {
      WithoutTokenSize(tokens[1..], id);
      assert forall i | 1 <= i < |tokens| :: tokens[i] == tokens[1..][i - 1];
    }
  }
}
