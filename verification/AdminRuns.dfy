/**
 Any run of the administrators' directory: what every call keeps, whom it lets
 in, and that nothing which has gone lets anybody in again.
 */
module AdminRuns {

  import opened Text
  import opened OrderedMap
  import opened AdminDirectory

  datatype Call =
    | Authenticate(env: Env, header: Option<string>, now: int)
    | Create(name: string, role: Role, now: int)
    | Update(name: string, newRole: Option<Role>, disabled: Option<bool>)
    | Remove(name: string)
    | IssueToken(name: string, title: string, random: string, id: string, now: int)
    | RevokeToken(name: string, id: string)
    | AddPasskey(name: string, credential: string, signCount: int, title: string, now: int)
    | RemovePasskey(name: string, credential: string)
    | PasskeySignIn(credential: string, signCount: int, random: string, now: int)
    | EndSession(text: string)

  function Step(sha: Hash, s: State, c: Call): State {
    match c
    case Authenticate(env, header, now) => Authenticated(sha, env, s, header, now).state
    case Create(name, role, now) => Created(s, name, role, now)
    case Update(name, role, disabled) => Updated(s, name, role, disabled)
    case Remove(name) => Removed(s, name)
    case IssueToken(name, title, random, id, now) => Issued(sha, s, name, title, random, id, now)
    case RevokeToken(name, id) => Revoked(s, name, id)
    case AddPasskey(name, credential, count, title, now) => PasskeyAdded(s, name, credential, count, title, now)
    case RemovePasskey(name, credential) => PasskeyRemoved(s, name, credential)
    case PasskeySignIn(credential, count, random, now) => SignedIn(sha, s, credential, count, random, now)
    case EndSession(text) => Ended(sha, s, text)
  }

  function Run(sha: Hash, s: State, calls: seq<Call>): State {
    if calls == [] then s else Step(sha, Run(sha, s, calls[..|calls| - 1]), calls[|calls| - 1])
  }

  // ---------------------------------------------------------------- the invariant

  predicate OwnDistinct(passkeys: seq<Passkey>) {
    forall i, j | 0 <= i < |passkeys| && 0 <= j < |passkeys| && i != j ::
        passkeys[i].credentialId != passkeys[j].credentialId
  }

  predicate Kind(name: string, u: User) {
    u.name == name && |u.tokens| <= KEPT && |u.passkeys| <= KEPT && OwnDistinct(u.passkeys)
  }

  predicate HasCredential(users: Users, name: string, credential: string) {
    Get(users, name).Some? && HasPasskey(Get(users, name).value, credential)
  }

  ghost predicate Kinds(users: Users) { forall k: string :: Get(users, k).Some? ==> Kind(k, Get(users, k).value) }

  /** No credential belongs to two administrators. */
  ghost predicate Unique(users: Users) {
    forall k: string, l: string, c: string :: HasCredential(users, k, c) && HasCredential(users, l, c) ==> k == l
  }

  ghost predicate UsersOk(users: Users) { Distinct(users) && |users| <= MAX_USERS && Kinds(users) && Unique(users) }

  predicate Active(users: Users, name: string) { Get(users, name).Some? && !Get(users, name).value.disabled }

  ghost predicate SessionsOk(users: Users, sessions: Sessions) {
    && Distinct(sessions) && |sessions| <= MAX_SESSIONS
    && forall h: string :: Get(sessions, h).Some? ==> Active(users, Get(sessions, h).value.name)
  }

  ghost predicate Inv(s: State) { UsersOk(s.users) && SessionsOk(s.users, s.sessions) }

  /** One administrator may differ. */
  ghost predicate SameBut(users: Users, after: Users, name: string) {
    forall k: string :: k != name ==> Get(after, k) == Get(users, k)
  }

  lemma PutSameBut(users: Users, name: string, v: User)
    ensures SameBut(users, Put(users, name, v), name) && Get(Put(users, name, v), name) == Some(v)
  {
    forall k: string ensures Get(Put(users, name, v), k) == if k == name then Some(v) else Get(users, k) {
      GetPut(users, name, v, k);
    }
  }

  lemma DeleteSameBut(users: Users, name: string)
    requires Distinct(users)
    ensures SameBut(users, Delete(users, name), name) && Get(Delete(users, name), name) == None
  {
    forall k: string ensures Get(Delete(users, name), k) == if k == name then None else Get(users, k) {
      GetDelete(users, name, k);
    }
  }

  lemma UniqueAfter(users: Users, after: Users, name: string)
    requires Unique(users) && SameBut(users, after, name)
    requires forall l: string, c: string :: HasCredential(after, name, c) && HasCredential(users, l, c) ==> l == name
    ensures Unique(after)
  {
    forall k: string, l: string, c: string | HasCredential(after, k, c) && HasCredential(after, l, c) ensures k == l {
      if k != name {
        assert HasCredential(users, k, c);
      }
      if l != name {
        assert HasCredential(users, l, c);
      }
    }
  }

  lemma PutOk(users: Users, name: string, v: User)
    requires UsersOk(users) && Kind(name, v) && (Has(users, name) || |users| < MAX_USERS)
    requires forall l: string, c: string :: HasPasskey(v, c) && HasCredential(users, l, c) ==> l == name
    ensures UsersOk(Put(users, name, v))
  {
    PutDistinct(users, name, v);
    PutSameBut(users, name, v);
    UniqueAfter(users, Put(users, name, v), name);
  }

  lemma PutKeepsSessions(users: Users, sessions: Sessions, name: string, v: User)
    requires SessionsOk(users, sessions) && (Active(users, name) ==> !v.disabled)
    ensures SessionsOk(Put(users, name, v), sessions)
  {
    forall k: string ensures Get(Put(users, name, v), k) == if k == name then Some(v) else Get(users, k) {
      GetPut(users, name, v, k);
    }
  }

  /** An administrator is replaced by one with no other passkeys, and no less enabled. */
  lemma ReplaceInv(s: State, name: string, u: User, v: User)
    requires Inv(s) && Get(s.users, name) == Some(u) && Kind(name, v) && v.disabled == u.disabled
    requires forall c: string :: HasPasskey(v, c) ==> HasPasskey(u, c)
    ensures Inv(s.(users := Put(s.users, name, v)))
  {
    forall l: string, c: string | HasPasskey(v, c) && HasCredential(s.users, l, c) ensures l == name {
      assert HasCredential(s.users, name, c);
    }
    PutOk(s.users, name, v);
    PutKeepsSessions(s.users, s.sessions, name, v);
  }

  lemma FewerSessions(s: State, sessions: Sessions)
    requires Inv(s) && Distinct(sessions) && |sessions| <= |s.sessions|
    requires forall h: string :: Get(sessions, h).Some? ==> Get(sessions, h) == Get(s.sessions, h)
    ensures Inv(s.(sessions := sessions))
  {}

  lemma DeleteSession(s: State, hash: string)
    requires Inv(s)
    ensures Inv(s.(sessions := Delete(s.sessions, hash)))
  {
    DeleteDistinct(s.sessions, hash);
    forall h: string ensures Get(Delete(s.sessions, hash), h) == if h == hash then None else Get(s.sessions, h) {
      GetDelete(s.sessions, hash, h);
    }
    FewerSessions(s, Delete(s.sessions, hash));
  }

  /** The sessions of everybody else. */
  lemma OthersSessions(sessions: Sessions, name: string)
    requires Distinct(sessions)
    ensures Distinct(Keep(sessions, NotOf(name))) && |Keep(sessions, NotOf(name))| <= |sessions|
    ensures forall h: string :: Get(Keep(sessions, NotOf(name)), h) ==
              match Get(sessions, h) { case None => None case Some(x) => if x.name != name then Some(x) else None }
  {
    KeepDistinct(sessions, NotOf(name));
    forall h: string ensures Get(Keep(sessions, NotOf(name)), h) ==
        match Get(sessions, h) { case None => None case Some(x) => if x.name != name then Some(x) else None } {
      GetKeep(sessions, NotOf(name), h);
    }
  }

  lemma {:induction false} HolderIs(users: Users, hash: string)
    requires Distinct(users)
    ensures match Holder(users, hash)
            case None => forall k: string :: Active(users, k) ==> !HasToken(Get(users, k).value, hash)
            case Some(name) => Active(users, name) && HasToken(Get(users, name).value, hash)
  {
    if users != [] {
      FirstAlone(users);
      HolderIs(users[1..], hash);
      assert users == [users[0]] + users[1..];
      forall k: string ensures Get(users, k) == if users[0].key == k then Some(users[0].value) else Get(users[1..], k) {
        FirstOf(users[0], users[1..], k);
      }
    }
  }

  lemma {:induction false} PasskeyHolderIs(users: Users, credential: string)
    requires Distinct(users)
    ensures match PasskeyHolder(users, credential)
            case None => forall k: string :: !HasCredential(users, k, credential)
            case Some(name) => HasCredential(users, name, credential)
  {
    if users != [] {
      FirstAlone(users);
      PasskeyHolderIs(users[1..], credential);
      assert users == [users[0]] + users[1..];
      forall k: string ensures Get(users, k) == if users[0].key == k then Some(users[0].value) else Get(users[1..], k) {
        FirstOf(users[0], users[1..], k);
      }
      if PasskeyHolder(users, credential).None? {
        forall k: string ensures !HasCredential(users, k, credential) {
          assert !HasCredential(users[1..], k, credential);
        }
      }
    }
  }

  lemma {:induction false} TouchedSame(tokens: seq<Token>, hash: string, now: int)
    ensures |Touched(tokens, hash, now)| == |tokens|
    ensures forall i | 0 <= i < |tokens| :: Touched(tokens, hash, now)[i].hash == tokens[i].hash
  {
    if tokens != [] {
      TouchedSame(tokens[1..], hash, now);
    }
  }

  lemma {:induction false} UsedSame(passkeys: seq<Passkey>, credential: string, count: int, now: int)
    ensures |Used(passkeys, credential, count, now)| == |passkeys|
    ensures forall i | 0 <= i < |passkeys| ::
            Used(passkeys, credential, count, now)[i].credentialId == passkeys[i].credentialId
  {
    if passkeys != [] {
      UsedSame(passkeys[1..], credential, count, now);
    }
  }

  /** The passkeys that stay, and where they were. */
  lemma {:induction false} WithoutPasskeyKeeps(passkeys: seq<Passkey>, credential: string)
    requires OwnDistinct(passkeys)
    ensures OwnDistinct(WithoutPasskey(passkeys, credential))
    ensures forall i | 0 <= i < |WithoutPasskey(passkeys, credential)| ::
            WithoutPasskey(passkeys, credential)[i] in passkeys
  {
    if passkeys != [] {
      var rest := WithoutPasskey(passkeys[1..], credential);
      WithoutPasskeyKeeps(passkeys[1..], credential);
      forall i | 0 <= i < |rest| ensures rest[i].credentialId != passkeys[0].credentialId {
        var j :| 0 <= j < |passkeys[1..]| && passkeys[1..][j] == rest[i];
        assert passkeys[j + 1] == rest[i];
      }
    }
  }

  lemma {:induction false} WithoutTokenKeeps(tokens: seq<Token>, id: string)
    ensures forall i | 0 <= i < |WithoutToken(tokens, id)| ::
            WithoutToken(tokens, id)[i] in tokens && WithoutToken(tokens, id)[i].id != id
  {
    if tokens != [] {
      WithoutTokenKeeps(tokens[1..], id);
    }
  }

  // ---------------------------------------------------------------- every call keeps it

  lemma ByHashInv(s: State, hash: string, now: int)
    requires Inv(s)
    ensures Inv(ByHash(s, hash, now).state)
  {
    DeleteSession(s, hash);
    HolderIs(s.users, hash);
    if SessionUser(s, hash, now).None? && Holder(s.users, hash).Some? {
      var name := Holder(s.users, hash).value;
      var u := Get(s.users, name).value;
      TouchedSame(u.tokens, hash, now);
      ReplaceInv(s.(sessions := Delete(s.sessions, hash)), name, u, u.(tokens := Touched(u.tokens, hash, now)));
    }
  }

  lemma CreatedInv(s: State, name: string, role: Role, now: int)
    requires Inv(s)
    ensures Inv(Created(s, name, role, now))
  {
    if CreateRefused(s, name).None? {
      var v := User(name, role, now, false, [], []);
      assert forall c: string :: !HasPasskey(v, c);
      PutOk(s.users, name, v);
      PutKeepsSessions(s.users, s.sessions, name, v);
    }
  }

  lemma UpdatedInv(s: State, name: string, role: Option<Role>, disabled: Option<bool>)
    requires Inv(s)
    ensures Inv(Updated(s, name, role, disabled))
  {
    if Get(s.users, name).Some? {
      var u := Get(s.users, name).value;
      var v := Patched(u, role, disabled);
      forall l: string, c: string | HasPasskey(v, c) && HasCredential(s.users, l, c) ensures l == name {
        assert HasCredential(s.users, name, c);
      }
      PutOk(s.users, name, v);
      PutSameBut(s.users, name, v);
      if v.disabled {
        WithoutUserSessions(s.users, s.sessions, name, Put(s.users, name, v));
      } else {
        PutKeepsSessions(s.users, s.sessions, name, v);
      }
    }
  }

  /** Whatever happens to one administrator, the others' sessions stay good. */
  lemma WithoutUserSessions(users: Users, sessions: Sessions, name: string, after: Users)
    requires SessionsOk(users, sessions)
    requires SameBut(users, after, name)
    ensures SessionsOk(after, Keep(sessions, NotOf(name)))
  {
    OthersSessions(sessions, name);
  }

  lemma RemovedInv(s: State, name: string)
    requires Inv(s)
    ensures Inv(Removed(s, name))
  {
    DeleteDistinct(s.users, name);
    DeleteSameBut(s.users, name);
    UniqueAfter(s.users, Delete(s.users, name), name);
    WithoutUserSessions(s.users, s.sessions, name, Delete(s.users, name));
  }

  lemma TokensInv(s: State, name: string, tokens: seq<Token>)
    requires Inv(s) && |tokens| <= KEPT
    ensures Inv(ChangeTokens(s, name, tokens))
  {
    if Get(s.users, name).Some? {
      var u := Get(s.users, name).value;
      ReplaceInv(s, name, u, u.(tokens := tokens));
    }
  }

  lemma PasskeysInv(s: State, name: string, passkeys: seq<Passkey>)
    requires Inv(s) && |passkeys| <= KEPT && OwnDistinct(passkeys) && Get(s.users, name).Some?
    requires forall i | 0 <= i < |passkeys| :: HasPasskey(Get(s.users, name).value, passkeys[i].credentialId)
    ensures Inv(ChangePasskeys(s, name, passkeys))
  {
    var u := Get(s.users, name).value;
    ReplaceInv(s, name, u, u.(passkeys := passkeys));
  }

  lemma PasskeyAddedInv(s: State, name: string, credential: string, count: int, title: string, now: int)
    requires Inv(s)
    ensures Inv(PasskeyAdded(s, name, credential, count, title, now))
  {
    PasskeyHolderIs(s.users, credential);
    if Get(s.users, name).Some? && PasskeyHolder(s.users, credential).None? {
      var u := Get(s.users, name).value;
      var all := u.passkeys + [Passkey(credential, count, LabelOr(title, "passkey"), now, 0)];
      var v := u.(passkeys := Newest(all));
      assert !HasCredential(s.users, name, credential);
      NewOne(u.passkeys, all);
      forall l: string, c: string | HasPasskey(v, c) && HasCredential(s.users, l, c) ensures l == name {
        assert c != credential;
        assert HasCredential(s.users, name, c) by {
          var i :| 0 <= i < |v.passkeys| && v.passkeys[i].credentialId == c;
          assert v.passkeys[i] in all;
        }
      }
      PutOk(s.users, name, v);
      PutKeepsSessions(s.users, s.sessions, name, v);
    }
  }

  lemma NewOne(passkeys: seq<Passkey>, all: seq<Passkey>)
    requires OwnDistinct(passkeys) && |all| == |passkeys| + 1 && all[..|passkeys|] == passkeys
    requires forall i | 0 <= i < |passkeys| :: passkeys[i].credentialId != all[|passkeys|].credentialId
    ensures OwnDistinct(Newest(all)) && forall i | 0 <= i < |Newest(all)| :: Newest(all)[i] in all
  {
    assert forall i | 0 <= i < |passkeys| :: all[i] == passkeys[i];
  }

  lemma PasskeyRemovedInv(s: State, name: string, credential: string)
    requires Inv(s)
    ensures Inv(PasskeyRemoved(s, name, credential))
  {
    if Get(s.users, name).Some? {
      var u := Get(s.users, name).value;
      var fewer := WithoutPasskey(u.passkeys, credential);
      WithoutPasskeyKeeps(u.passkeys, credential);
      forall i | 0 <= i < |fewer| ensures HasPasskey(u, fewer[i].credentialId) {
        var j :| 0 <= j < |u.passkeys| && u.passkeys[j] == fewer[i];
      }
      PasskeysInv(s, name, fewer);
    }
  }

  lemma SessionPutOk(users: Users, sessions: Sessions, hash: string, x: Session)
    requires SessionsOk(users, sessions) && Active(users, x.name)
    ensures SessionsOk(users, SessionPut(sessions, hash, x))
  {
    var more := Put(sessions, hash, x);
    PutDistinct(sessions, hash, x);
    forall h: string ensures Get(more, h) == if h == hash then Some(x) else Get(sessions, h) {
      GetPut(sessions, hash, x, h);
    }
    if |more| > MAX_SESSIONS {
      FirstAlone(more);
      forall h: string | Get(more[1..], h).Some? ensures Get(more[1..], h) == Get(more, h) {}
    }
  }

  lemma SignedInInv(sha: Hash, s: State, credential: string, count: int, random: string, now: int)
    requires Inv(s)
    ensures Inv(SignedIn(sha, s, credential, count, random, now))
  {
    PasskeyHolderIs(s.users, credential);
    if PasskeyUser(s, credential).Some? {
      var name, u := PasskeyHolder(s.users, credential).value, PasskeyUser(s, credential).value;
      UsedSame(u.passkeys, credential, count, now);
      var used := Used(u.passkeys, credential, count, now);
      PasskeysInv(s, name, used);
      var t := ChangePasskeys(s, name, used);
      GetPut(s.users, name, u.(passkeys := used), name);
      SessionPutOk(t.users, s.sessions, sha("m5s_" + random), Session(u.name, now + ADMIN_SESSION_TTL_MS));
    }
  }

  lemma StepInv(sha: Hash, s: State, c: Call)
    requires Inv(s)
    ensures Inv(Step(sha, s, c))
  {
    match c
    case Authenticate(env, header, now) =>
      if TokenIn(header).Some? {
        ByHashInv(s, sha(TokenIn(header).value), now);
      }
    case Create(name, role, now) => CreatedInv(s, name, role, now);
    case Update(name, role, disabled) => UpdatedInv(s, name, role, disabled);
    case Remove(name) => RemovedInv(s, name);
    case IssueToken(name, title, random, id, now) =>
      if Get(s.users, name).Some? {
        TokensInv(s, name, Newest(Get(s.users, name).value.tokens +
            [Token(id, sha("m5a_" + random), LabelOr(title, "token"), now, 0)]));
      }
    case RevokeToken(name, id) =>
      if Get(s.users, name).Some? {
        TokensInv(s, name, WithoutToken(Get(s.users, name).value.tokens, id));
      }
    case AddPasskey(name, credential, count, title, now) => PasskeyAddedInv(s, name, credential, count, title, now);
    case RemovePasskey(name, credential) => PasskeyRemovedInv(s, name, credential);
    case PasskeySignIn(credential, count, random, now) => SignedInInv(sha, s, credential, count, random, now);
    case EndSession(text) => DeleteSession(s, sha(EndToken(text)));
  }

  /**
   Main result: from any good directory, such as an empty one, every call keeps
   it good: each session is of a present, enabled administrator, no credential
   belongs to two, and all the caps hold.
   */
  lemma {:induction false} RunInv(sha: Hash, s: State, calls: seq<Call>)
    requires Inv(s)
    ensures Inv(Run(sha, s, calls))
    decreases |calls|
  {
    if calls != [] {
      RunInv(sha, s, calls[..|calls| - 1]);
      StepInv(sha, Run(sha, s, calls[..|calls| - 1]), calls[|calls| - 1]);
    }
  }

  lemma EmptyInv()
    ensures Inv(State([], []))
  {
    assert forall k: string :: Get<string, User>([], k).None?;
    assert forall k: string :: Get<string, Session>([], k).None?;
  }

  // ---------------------------------------------------------------- who is let in

  /** A session or a token of this hash belongs to `name`. */
  predicate Holds(s: State, name: string, hash: string) {
    || (Get(s.users, name).Some? && HasToken(Get(s.users, name).value, hash))
    || (Get(s.sessions, hash).Some? && Get(s.sessions, hash).value.name == name)
  }

  predicate LiveSession(s: State, hash: string, now: int) {
    Get(s.sessions, hash).Some? && Get(s.sessions, hash).value.expiresAt > now
  }

  /**
   Main result: in a good directory a hash lets somebody in exactly when it has
   a session that is not over, or an enabled administrator has a token of it;
   and it lets in that administrator, as the present role.
   */
  lemma LetIn(s: State, hash: string, now: int)
    requires Inv(s)
    ensures var p := ByHash(s, hash, now).principal;
            && (p.Some? <==>
                LiveSession(s, hash, now) || exists k: string ::
                    Active(s.users, k) && HasToken(Get(s.users, k).value, hash))
            && (p.Some? ==>
                && Active(s.users, p.value.name) && Get(s.users, p.value.name).value.role == p.value.role
                && Holds(s, p.value.name, hash))
  {
    HolderIs(s.users, hash);
    if Holder(s.users, hash).Some? {
      assert Active(s.users, Holder(s.users, hash).value);
    }
    if LiveSession(s, hash, now) {
      assert Active(s.users, Get(s.sessions, hash).value.name);
    }
  }

  // ---------------------------------------------------------------- nothing gone comes back

  /** The hash that a call makes from fresh random characters. */
  function Drawn(sha: Hash, c: Call): Option<string> {
    match c
    case IssueToken(_, _, random, _, _) => Some(sha("m5a_" + random))
    case PasskeySignIn(_, _, random, _) => Some(sha("m5s_" + random))
    case _ => None
  }

  predicate DrawnBy(sha: Hash, calls: seq<Call>, hash: string) {
    exists i | 0 <= i < |calls| :: Drawn(sha, calls[i]) == Some(hash)
  }

  /** One administrator changes, and has no token of this hash that was not there. */
  lemma PutHolds(s: State, name: string, v: User, n: string, hash: string)
    requires Holds(s.(users := Put(s.users, name, v)), n, hash)
    requires HasToken(v, hash) ==> Get(s.users, name).Some? && HasToken(Get(s.users, name).value, hash)
    ensures Holds(s, n, hash)
  {
    GetPut(s.users, name, v, n);
  }

  lemma DeletedHolds(s: State, session: string, n: string, hash: string)
    requires Distinct(s.sessions) && Holds(s.(sessions := Delete(s.sessions, session)), n, hash)
    ensures Holds(s, n, hash)
  {
    GetDelete(s.sessions, session, hash);
  }

  lemma ByHashHolds(s: State, shown: string, now: int, n: string, hash: string)
    requires Inv(s) && Holds(ByHash(s, shown, now).state, n, hash)
    ensures Holds(s, n, hash)
  {
    var t := s.(sessions := Delete(s.sessions, shown));
    HolderIs(s.users, shown);
    if SessionUser(s, shown, now).None? {
      if Holder(s.users, shown).Some? {
        var u := Get(s.users, Holder(s.users, shown).value).value;
        TouchedSame(u.tokens, shown, now);
        PutHolds(t, u.name, u.(tokens := Touched(u.tokens, shown, now)), n, hash);
      }
      DeletedHolds(s, shown, n, hash);
    }
  }

  lemma UpdatedHolds(s: State, name: string, role: Option<Role>, disabled: Option<bool>, n: string, hash: string)
    requires Inv(s) && Holds(Updated(s, name, role, disabled), n, hash)
    ensures Holds(s, n, hash)
  {
    if Get(s.users, name).Some? {
      OthersSessions(s.sessions, name);
      GetPut(s.users, name, Patched(Get(s.users, name).value, role, disabled), n);
    }
  }

  lemma RemovedHolds(s: State, name: string, n: string, hash: string)
    requires Inv(s) && Holds(Removed(s, name), n, hash)
    ensures Holds(s, n, hash) && n != name
  {
    OthersSessions(s.sessions, name);
    GetDelete(s.users, name, n);
  }

  lemma IssuedHolds(sha: Hash, s: State, c: Call, n: string, hash: string)
    requires c.IssueToken? && Holds(Step(sha, s, c), n, hash) && Drawn(sha, c) != Some(hash)
    ensures Holds(s, n, hash)
  {
    if Get(s.users, c.name).Some? {
      var u := Get(s.users, c.name).value;
      var all := u.tokens + [Token(c.id, sha("m5a_" + c.random), LabelOr(c.title, "token"), c.now, 0)];
      var v := u.(tokens := Newest(all));
      if HasToken(v, hash) {
        var i :| 0 <= i < |v.tokens| && v.tokens[i].hash == hash;
        assert v.tokens[i] in all;
        var j :| 0 <= j < |all| && all[j] == v.tokens[i];
        assert j < |u.tokens| && u.tokens[j].hash == hash;
      }
      PutHolds(s, c.name, v, n, hash);
    }
  }

  lemma RevokedHolds(s: State, name: string, id: string, n: string, hash: string)
    requires Holds(Revoked(s, name, id), n, hash)
    ensures Holds(s, n, hash)
  {
    if Get(s.users, name).Some? {
      var u := Get(s.users, name).value;
      var v := u.(tokens := WithoutToken(u.tokens, id));
      WithoutTokenKeeps(u.tokens, id);
      if HasToken(v, hash) {
        var i :| 0 <= i < |v.tokens| && v.tokens[i].hash == hash;
        var j :| 0 <= j < |u.tokens| && u.tokens[j] == v.tokens[i];
      }
      PutHolds(s, name, v, n, hash);
    }
  }

  lemma PasskeysHold(s: State, name: string, passkeys: seq<Passkey>, n: string, hash: string)
    requires Holds(ChangePasskeys(s, name, passkeys), n, hash)
    ensures Holds(s, n, hash)
  {
    if Get(s.users, name).Some? {
      PutHolds(s, name, Get(s.users, name).value.(passkeys := passkeys), n, hash);
    }
  }

  lemma SessionPutHolds(sessions: Sessions, drawn: string, x: Session, hash: string)
    requires Distinct(sessions) && hash != drawn && Get(SessionPut(sessions, drawn, x), hash).Some?
    ensures Get(SessionPut(sessions, drawn, x), hash) == Get(sessions, hash)
  {
    PutDistinct(sessions, drawn, x);
    GetPut(sessions, drawn, x, hash);
    if |Put(sessions, drawn, x)| > MAX_SESSIONS {
      FirstAlone(Put(sessions, drawn, x));
    }
  }

  lemma SignedInHolds(sha: Hash, s: State, c: Call, n: string, hash: string)
    requires c.PasskeySignIn? && Inv(s) && Holds(Step(sha, s, c), n, hash) && Drawn(sha, c) != Some(hash)
    ensures Holds(s, n, hash)
  {
    if PasskeyUser(s, c.credential).Some? {
      var name, u := PasskeyHolder(s.users, c.credential).value, PasskeyUser(s, c.credential).value;
      var used := Used(u.passkeys, c.credential, c.signCount, c.now);
      var t := ChangePasskeys(s, name, used);
      if Holds(t, n, hash) {
        PasskeysHold(s, name, used, n, hash);
      } else {
        SessionPutHolds(s.sessions, sha("m5s_" + c.random), Session(u.name, c.now + ADMIN_SESSION_TTL_MS), hash);
      }
    }
  }

  /** No call but one that draws a hash gives anybody that hash. */
  lemma StepHolds(sha: Hash, s: State, c: Call, n: string, hash: string)
    requires Inv(s) && Holds(Step(sha, s, c), n, hash) && Drawn(sha, c) != Some(hash)
    ensures Holds(s, n, hash)
  {
    match c
    case Authenticate(env, header, now) =>
      if TokenIn(header).Some? && Step(sha, s, c) != s {
        ByHashHolds(s, sha(TokenIn(header).value), now, n, hash);
      }
    case Create(name, role, now) =>
      if CreateRefused(s, name).None? {
        PutHolds(s, name, User(name, role, now, false, [], []), n, hash);
      }
    case Update(name, role, disabled) => UpdatedHolds(s, name, role, disabled, n, hash);
    case Remove(name) => RemovedHolds(s, name, n, hash);
    case IssueToken(_, _, _, _, _) => IssuedHolds(sha, s, c, n, hash);
    case RevokeToken(name, id) => RevokedHolds(s, name, id, n, hash);
    case AddPasskey(name, credential, count, title, now) =>
      if Step(sha, s, c) != s {
        PasskeysHold(s, name, Newest(Get(s.users, name).value.passkeys +
            [Passkey(credential, count, LabelOr(title, "passkey"), now, 0)]), n, hash);
      }
    case RemovePasskey(name, credential) =>
      if Get(s.users, name).Some? {
        PasskeysHold(s, name, WithoutPasskey(Get(s.users, name).value.passkeys, credential), n, hash);
      }
    case PasskeySignIn(_, _, _, _) => SignedInHolds(sha, s, c, n, hash);
    case EndSession(text) => DeletedHolds(s, sha(EndToken(text)), n, hash);
  }

  lemma {:induction false} RunHolds(sha: Hash, s: State, calls: seq<Call>, n: string, hash: string)
    requires Inv(s) && Holds(Run(sha, s, calls), n, hash) && !DrawnBy(sha, calls, hash)
    ensures Holds(s, n, hash)
    decreases |calls|
  {
    if calls != [] {
      var before, last := calls[..|calls| - 1], calls[|calls| - 1];
      RunInv(sha, s, before);
      assert Drawn(sha, last) != Some(hash);
      StepHolds(sha, Run(sha, s, before), last, n, hash);
      assert forall i | 0 <= i < |before| :: before[i] == calls[i];
      RunHolds(sha, s, before, n, hash);
    }
  }

  predicate EnvOk(env: Env) { forall h | h in env.tokens :: env.tokens[h].via == EnvToken }

  /** Who is let in other than by the environment's tokens. */
  function LetInBy(sha: Hash, env: Env, s: State, header: Option<string>, now: int): Option<Principal> {
    var p := Authenticated(sha, env, s, header, now).principal;
    if p.Some? && p.value.via != EnvToken then p else None
  }

  lemma LetInByHash(sha: Hash, env: Env, s: State, header: Option<string>, now: int)
    requires Inv(s) && EnvOk(env) && LetInBy(sha, env, s, header, now).Some?
    ensures TokenIn(header).Some?
    ensures var p := LetInBy(sha, env, s, header, now).value;
            && Active(s.users, p.name) && Get(s.users, p.name).value.role == p.role
            && Holds(s, p.name, sha(TokenIn(header).value))
  {
    LetIn(s, sha(TokenIn(header).value), now);
  }

  /**
   Main result: a removed administrator's name, whether created again or not,
   is let in only by tokens and sessions drawn after the removal.
   */
  lemma RemovedStaysOut(sha: Hash, env: Env, s: State, name: string, calls: seq<Call>, header: Option<string>, now: int)
    requires Inv(s) && EnvOk(env)
    ensures var p := LetInBy(sha, env, Run(sha, Removed(s, name), calls), header, now);
            p.Some? && p.value.name == name ==> TokenIn(header).Some? && DrawnBy(sha, calls, sha(TokenIn(header).value))
  {
    var r := Removed(s, name);
    RemovedInv(s, name);
    RunInv(sha, r, calls);
    var p := LetInBy(sha, env, Run(sha, r, calls), header, now);
    if p.Some? && p.value.name == name {
      LetInByHash(sha, env, Run(sha, r, calls), header, now);
      var hash := sha(TokenIn(header).value);
      if !DrawnBy(sha, calls, hash) {
        RunHolds(sha, r, calls, name, hash);
        RemovedHolds(s, name, name, hash);
      }
    }
  }

  /** Main result: a token whose hash nobody holds lets nobody in, ever, unless the hash is drawn again. */
  lemma GoneStaysGone(sha: Hash, env: Env, s: State, calls: seq<Call>, header: Option<string>, now: int)
    requires Inv(s) && EnvOk(env) && TokenIn(header).Some?
    requires !DrawnBy(sha, calls, sha(TokenIn(header).value))
    requires forall n: string :: !Holds(s, n, sha(TokenIn(header).value))
    ensures LetInBy(sha, env, Run(sha, s, calls), header, now) == None
  {
    RunInv(sha, s, calls);
    var p := LetInBy(sha, env, Run(sha, s, calls), header, now);
    if p.Some? {
      LetInByHash(sha, env, Run(sha, s, calls), header, now);
      RunHolds(sha, s, calls, p.value.name, sha(TokenIn(header).value));
    }
  }

  /** Disabling an administrator ends every session of that name, and enabling brings none back. */
  lemma DisabledHasNoSession(s: State, name: string, role: Option<Role>, back: Option<Role>, hash: string)
    requires Inv(s) && Get(s.users, name).Some?
    ensures var off := Updated(s, name, role, Some(true));
            var on := Updated(off, name, back, Some(false));
            && (Get(off.sessions, hash).Some? ==> Get(off.sessions, hash).value.name != name)
            && on.sessions == off.sessions
  {
    OthersSessions(s.sessions, name);
    GetPut(s.users, name, Patched(Get(s.users, name).value, role, Some(true)), name);
  }

  lemma NobodyNoSession(s: State, hash: string)
    requires forall n: string :: !Holds(s, n, hash)
    ensures Get(s.sessions, hash).None?
  {
    var x := Get(s.sessions, hash);
    assert x.Some? ==> Holds(s, x.value.name, hash);
  }

  /** A token lets its administrator in as soon as it is issued. */
  lemma IssuedLetsIn(sha: Hash, s: State, name: string, title: string, random: string, id: string, now: int)
    requires Inv(s) && Active(s.users, name)
    requires forall n: string :: !Holds(s, n, sha("m5a_" + random))
    ensures ByHash(Issued(sha, s, name, title, random, id, now), sha("m5a_" + random), now).principal ==
            Some(Principal(name, Get(s.users, name).value.role, ByToken))
  {
    var hash := sha("m5a_" + random);
    var u := Get(s.users, name).value;
    var all := u.tokens + [Token(id, hash, LabelOr(title, "token"), now, 0)];
    var v := u.(tokens := Newest(all));
    var t := Issued(sha, s, name, title, random, id, now);
    TokensInv(s, name, Newest(all));
    assert v.tokens[|v.tokens| - 1].hash == hash;
    GetPut(s.users, name, v, name);
    NobodyNoSession(s, hash);
    HolderIs(t.users, hash);
    assert Active(t.users, name) && HasToken(Get(t.users, name).value, hash);
    var holder := Holder(t.users, hash).value;
    if holder != name {
      GetPut(s.users, name, v, holder);
      assert Holds(s, holder, hash);
    }
  }

  /** A session lets its administrator in for eight hours, while nothing else is called. */
  lemma SessionLetsIn(sha: Hash, s: State, credential: string, count: int, random: string, now: int, later: int)
    requires Inv(s) && PasskeyUser(s, credential).Some?
    requires forall n: string :: !Holds(s, n, sha("m5s_" + random))
    ensures var u := PasskeyUser(s, credential).value;
            ByHash(SignedIn(sha, s, credential, count, random, now), sha("m5s_" + random), later).principal ==
            if later < now + ADMIN_SESSION_TTL_MS then Some(Principal(u.name, u.role, ByPasskey)) else None
  {
    var hash := sha("m5s_" + random);
    var name, u := PasskeyHolder(s.users, credential).value, PasskeyUser(s, credential).value;
    PasskeyHolderIs(s.users, credential);
    NobodyNoSession(s, hash);
    var v := u.(passkeys := Used(u.passkeys, credential, count, now));
    var t := SignedIn(sha, s, credential, count, random, now);
    GetPut(s.users, name, v, u.name);
    NewSession(s.sessions, hash, Session(u.name, now + ADMIN_SESSION_TTL_MS));
    SignedInInv(sha, s, credential, count, random, now);
    HolderIs(t.users, hash);
    if Holder(t.users, hash).Some? {
      var holder := Holder(t.users, hash).value;
      GetPut(s.users, name, v, holder);
      assert Holds(s, holder, hash);
    }
  }

  /** The newest session is not the one that goes. */
  lemma NewSession(sessions: Sessions, hash: string, x: Session)
    requires Distinct(sessions) && Get(sessions, hash).None?
    ensures Get(SessionPut(sessions, hash, x), hash) == Some(x)
  {
    PutNew(sessions, hash, x);
    PutDistinct(sessions, hash, x);
    GetPut(sessions, hash, x, hash);
    var more := Put(sessions, hash, x);
    if |more| > MAX_SESSIONS {
      FirstAlone(more);
      assert more[0].key != hash;
    }
  }

  // ---------------------------------------------------------------- who is what

  /** What `create`, `update` and `remove` answer: whether they did it. */
  function Answer(s: State, c: Call): bool {
    match c
    case Create(name, _, _) => CreateRefused(s, name).None?
    case Update(name, _, _) => Has(s.users, name)
    case Remove(name) => Has(s.users, name)
    case _ => true
  }

  /** An administrator's account, as calls and answers tell. */
  datatype Account = Account(role: Role, disabled: bool)

  /** One call and its answer, entered in the account of `name`. */
  function Entered(a: Option<Account>, name: string, c: Call, done: bool): Option<Account> {
    match c
    case Create(n, role, _) => if n == name && done then Some(Account(role, false)) else a
    case Update(n, role, disabled) =>
      if n != name || !done || a.None? then a
      else
        Some(Account(match role { case Some(r) => r case None => a.value.role },
                     match disabled { case Some(d) => d case None => a.value.disabled }))
    case Remove(n) => if n == name && done then None else a
    case _ => a
  }

  /** The account of `name` after calls to an empty directory. */
  function AccountOf(sha: Hash, calls: seq<Call>, name: string): Option<Account> {
    if calls == [] then None
    else
      var before, last := calls[..|calls| - 1], calls[|calls| - 1];
      Entered(AccountOf(sha, before, name), name, last, Answer(Run(sha, State([], []), before), last))
  }

  /** What the directory has under a name. */
  function Stored(s: State, name: string): Option<Account> {
    match Get(s.users, name) { case None => None case Some(u) => Some(Account(u.role, u.disabled)) }
  }

  /** No call but those three touches an account; they touch only the one they name. */
  lemma StepStored(sha: Hash, s: State, c: Call, name: string)
    requires Inv(s)
    ensures Stored(Step(sha, s, c), name) == Entered(Stored(s, name), name, c, Answer(s, c))
  {
    match c
    case Authenticate(env, header, now) =>
      if TokenIn(header).Some? {
        ByHashStored(s, sha(TokenIn(header).value), now, name);
      }
    case Create(n, role, now) =>
      if CreateRefused(s, n).None? {
        GetPut(s.users, n, User(n, role, now, false, [], []), name);
      }
    case Update(n, role, disabled) =>
      if Get(s.users, n).Some? {
        GetPut(s.users, n, Patched(Get(s.users, n).value, role, disabled), name);
      }
    case Remove(n) =>
      GetDelete(s.users, n, name);
      DeleteNoneStored(s, n);
    case PasskeySignIn(credential, count, random, now) =>
      if PasskeyUser(s, credential).Some? {
        PasskeysStored(s, PasskeyHolder(s.users, credential).value,
            Used(PasskeyUser(s, credential).value.passkeys, credential, count, now), name);
      }
    case _ => KeptStored(sha, s, c, name);
  }

  lemma DeleteNoneStored(s: State, n: string)
    ensures !Has(s.users, n) ==> Delete(s.users, n) == s.users
  {
    if !Has(s.users, n) {
      DeleteNone(s.users, n);
    }
  }

  lemma ByHashStored(s: State, hash: string, now: int, name: string)
    requires Inv(s)
    ensures Stored(ByHash(s, hash, now).state, name) == Stored(s, name)
  {
    if SessionUser(s, hash, now).None? && Holder(s.users, hash).Some? {
      HolderIs(s.users, hash);
      var n := Holder(s.users, hash).value;
      var u := Get(s.users, n).value;
      GetPut(s.users, n, u.(tokens := Touched(u.tokens, hash, now)), name);
    }
  }

  lemma TokensStored(s: State, n: string, tokens: seq<Token>, name: string)
    ensures Stored(ChangeTokens(s, n, tokens), name) == Stored(s, name)
  {
    if Get(s.users, n).Some? {
      GetPut(s.users, n, Get(s.users, n).value.(tokens := tokens), name);
    }
  }

  lemma PasskeysStored(s: State, n: string, passkeys: seq<Passkey>, name: string)
    ensures Stored(ChangePasskeys(s, n, passkeys), name) == Stored(s, name)
  {
    if Get(s.users, n).Some? {
      GetPut(s.users, n, Get(s.users, n).value.(passkeys := passkeys), name);
    }
  }

  lemma KeptStored(sha: Hash, s: State, c: Call, name: string)
    requires c.IssueToken? || c.RevokeToken? || c.AddPasskey? || c.RemovePasskey? || c.EndSession?
    ensures Stored(Step(sha, s, c), name) == Stored(s, name)
  {
    match c
    case IssueToken(n, title, random, id, now) =>
      if Get(s.users, n).Some? {
        var token := Token(id, sha("m5a_" + random), LabelOr(title, "token"), now, 0);
        TokensStored(s, n, Newest(Get(s.users, n).value.tokens + [token]), name);
      }
    case RevokeToken(n, id) =>
      if Get(s.users, n).Some? {
        TokensStored(s, n, WithoutToken(Get(s.users, n).value.tokens, id), name);
      }
    case AddPasskey(n, credential, count, title, now) =>
      if Get(s.users, n).Some? {
        var passkey := Passkey(credential, count, LabelOr(title, "passkey"), now, 0);
        PasskeysStored(s, n, Newest(Get(s.users, n).value.passkeys + [passkey]), name);
      }
    case RemovePasskey(n, credential) =>
      if Get(s.users, n).Some? {
        PasskeysStored(s, n, WithoutPasskey(Get(s.users, n).value.passkeys, credential), name);
      }
    case EndSession(_) =>
  }

  /**
   Main result: over any run from an empty directory, what it has under each name is
   the account that calls and answers tell.
   */
  lemma {:induction false} AccountAgrees(sha: Hash, calls: seq<Call>, name: string)
    ensures Stored(Run(sha, State([], []), calls), name) == AccountOf(sha, calls, name)
    decreases |calls|
  {
    if calls != [] {
      var before, last := calls[..|calls| - 1], calls[|calls| - 1];
      EmptyInv();
      RunInv(sha, State([], []), before);
      AccountAgrees(sha, before, name);
      StepStored(sha, Run(sha, State([], []), before), last, name);
    }
  }

  /**
   Main result: over any run, whoever is let in other than by the environment
   has the role given last: when it was created, or by a later update that gave
   one; and is not disabled.
   */
  lemma LetInAs(sha: Hash, env: Env, calls: seq<Call>, header: Option<string>, now: int)
    requires EnvOk(env)
    ensures var p := LetInBy(sha, env, Run(sha, State([], []), calls), header, now);
            p.Some? ==> AccountOf(sha, calls, p.value.name) == Some(Account(p.value.role, false))
  {
    var s := Run(sha, State([], []), calls);
    EmptyInv();
    RunInv(sha, State([], []), calls);
    var p := LetInBy(sha, env, s, header, now);
    if p.Some? {
      LetInByHash(sha, env, s, header, now);
      AccountAgrees(sha, calls, p.value.name);
    }
  }

  /** Main result: changing or removing an administrator leaves every other one, and their sessions, as they were. */
  lemma OthersAsBefore(s: State, name: string, role: Option<Role>, disabled: Option<bool>, other: string, hash: string)
    requires Inv(s) && other != name
    ensures Get(Updated(s, name, role, disabled).users, other) == Get(s.users, other) ==
            Get(Removed(s, name).users, other)
    ensures Get(s.sessions, hash).Some? && Get(s.sessions, hash).value.name == other ==>
              && Get(Updated(s, name, role, disabled).sessions, hash) == Get(s.sessions, hash)
              && Get(Removed(s, name).sessions, hash) == Get(s.sessions, hash)
  {
    OthersSessions(s.sessions, name);
    GetDelete(s.users, name, other);
    if Get(s.users, name).Some? {
      GetPut(s.users, name, Patched(Get(s.users, name).value, role, disabled), other);
    }
  }

  // ---------------------------------------------------------------- ending a session

  lemma {:induction false} TrimStartAgain(s: string)
    ensures s != "" && IsSpace(s[0]) ==> TrimStart(s) == TrimStart(s[1..])
    ensures TrimEnd(s) == s <==> s == "" || !IsSpace(s[|s| - 1])
  {}

  lemma EndsText(header: string)
    requires StartsWith(header, "Bearer ")
    ensures var shown := TrimStart(header[7..]);
            EndToken(header) == Trim(header[7..]) <==> shown == "" || !IsSpace(shown[|shown| - 1])
  {
    assert header[6] == "Bearer "[6] == ' ' && header[..6] == "Bearer";
    assert header[6..][1..] == header[7..] && header[6..][0] == ' ';
    TrimStartAgain(header[6..]);
    TrimStartAgain(TrimStart(header[7..]));
  }

  /**
   Main result: `endSession` ends the session that the header's token shows
   exactly when no space follows the token: spaces there it does not cut off.
   A live session that it does not end lets its administrator in as before.
   */
  lemma EndsShownToken(sha: Hash, s: State, header: string, now: int)
    requires Inv(s) && Injective(sha) && StartsWith(header, "Bearer ")
    requires LiveSession(s, sha(Trim(header[7..])), now)
    ensures var hash := sha(Trim(header[7..]));
            var shown := TrimStart(header[7..]);
            var after := Ended(sha, s, header);
            && (Get(after.sessions, hash).None? <==> shown == "" || !IsSpace(shown[|shown| - 1]))
            && (Get(after.sessions, hash).Some? ==>
               ByHash(after, hash, now).principal == ByHash(s, hash, now).principal != None)
  {
    var hash := sha(Trim(header[7..]));
    EndsText(header);
    GetDelete(s.sessions, sha(EndToken(header)), hash);
    assert Active(s.users, Get(s.sessions, hash).value.name);
  }

  /** Main result: once its session is ended like that, a token that no administrator has lets nobody in any more. */
  lemma EndedStaysOut(sha: Hash, env: Env, s: State, header: string, calls: seq<Call>, again: Option<string>, now: int)
    requires Inv(s) && EnvOk(env) && TokenIn(again) == Some(EndToken(header))
    requires TokensOf(s.users, sha(EndToken(header))) == 0 && !DrawnBy(sha, calls, sha(EndToken(header)))
    ensures LetInBy(sha, env, Run(sha, Ended(sha, s, header), calls), again, now) == None
  {
    var hash := sha(EndToken(header));
    var after := Ended(sha, s, header);
    DeleteSession(s, hash);
    GetDelete(s.sessions, hash, hash);
    NoneHeld(after, hash);
    GoneStaysGone(sha, env, after, calls, again, now);
  }

  // ---------------------------------------------------------------- how often a hash is held

  function CountIn(tokens: seq<Token>, hash: string): nat {
    if tokens == [] then 0 else (if tokens[0].hash == hash then 1 else 0) + CountIn(tokens[1..], hash)
  }

  /** How many tokens of all administrators have this hash. */
  function TokensOf(users: Users, hash: string): nat {
    if users == [] then 0 else CountIn(users[0].value.tokens, hash) + TokensOf(users[1..], hash)
  }

  /** How many tokens and sessions have this hash. */
  function Copies(s: State, hash: string): nat { TokensOf(s.users, hash) + if Has(s.sessions, hash) then 1 else 0 }

  lemma {:induction false} CountNone(tokens: seq<Token>, hash: string)
    ensures CountIn(tokens, hash) == 0 <==> forall i | 0 <= i < |tokens| :: tokens[i].hash != hash
  {
    if tokens != [] {
      CountNone(tokens[1..], hash);
      assert forall i | 1 <= i < |tokens| :: tokens[i] == tokens[1..][i - 1];
    }
  }

  lemma {:induction false} CountAppend(a: seq<Token>, b: seq<Token>, hash: string)
    ensures CountIn(a + b, hash) == CountIn(a, hash) + CountIn(b, hash)
  {
    if a == [] {
      assert a + b == b;
    } else {
      assert (a + b)[1..] == a[1..] + b;
      CountAppend(a[1..], b, hash);
    }
  }

  lemma CountNewest(tokens: seq<Token>, hash: string)
    ensures CountIn(Newest(tokens), hash) <= CountIn(tokens, hash)
  {
    if |tokens| > KEPT {
      var k := |tokens| - KEPT;
      assert tokens == tokens[..k] + tokens[k..];
      CountAppend(tokens[..k], tokens[k..], hash);
    }
  }

  lemma {:induction false} CountTouched(tokens: seq<Token>, shown: string, now: int, hash: string)
    ensures CountIn(Touched(tokens, shown, now), hash) == CountIn(tokens, hash)
  {
    if tokens != [] {
      CountTouched(tokens[1..], shown, now, hash);
    }
  }

  lemma {:induction false} CountWithout(tokens: seq<Token>, id: string, hash: string)
    ensures CountIn(WithoutToken(tokens, id), hash) <= CountIn(tokens, hash)
    ensures (exists i | 0 <= i < |tokens| :: tokens[i].id == id && tokens[i].hash == hash) ==>
              CountIn(WithoutToken(tokens, id), hash) < CountIn(tokens, hash)
  {
    if tokens != [] {
      CountWithout(tokens[1..], id, hash);
      var rest := WithoutToken(tokens[1..], id);
      assert ([tokens[0]] + rest)[1..] == rest && [] + rest == rest;
      if i :| 0 <= i < |tokens| && tokens[i].id == id && tokens[i].hash == hash {
        assert i > 0 ==> tokens[1..][i - 1] == tokens[i];
      }
    }
  }

  /** The tokens that an administrator's name has of a hash. */
  function CountOf(users: Users, name: string, hash: string): nat {
    match Get(users, name) { case None => 0 case Some(u) => CountIn(u.tokens, hash) }
  }

  lemma {:induction false} TokensPut(users: Users, name: string, v: User, hash: string)
    ensures TokensOf(Put(users, name, v), hash) ==
            TokensOf(users, hash) - CountOf(users, name, hash) + CountIn(v.tokens, hash)
    ensures CountOf(users, name, hash) <= TokensOf(users, hash)
  {
    if users == [] {
      assert [Entry(name, v)][1..] == [];
    } else if users[0].key != name {
      TokensPut(users[1..], name, v, hash);
      var rest := Put(users[1..], name, v);
      assert ([users[0]] + rest)[1..] == rest;
    } else {
      assert ([Entry(name, v)] + users[1..])[1..] == users[1..];
    }
  }

  lemma {:induction false} TokensDelete(users: Users, name: string, hash: string)
    ensures TokensOf(Delete(users, name), hash) <= TokensOf(users, hash)
  {
    if users != [] && users[0].key != name {
      TokensDelete(users[1..], name, hash);
      var rest := Delete(users[1..], name);
      assert ([users[0]] + rest)[1..] == rest;
    }
  }

  /** What is held by nobody is what has no copy. */
  lemma NoneHeld(s: State, hash: string)
    ensures Copies(s, hash) == 0 ==> forall n: string :: !Holds(s, n, hash)
  {
    if Copies(s, hash) == 0 {
      forall n: string ensures !Holds(s, n, hash) {
        if Get(s.users, n).Some? {
          var u := Get(s.users, n).value;
          TokensPut(s.users, n, u, hash);
          CountNone(u.tokens, hash);
        }
      }
    }
  }

  // ---------------------------------------------------------------- only drawing adds a copy

  /** One administrator is replaced by one with no more tokens of the hash. */
  lemma PutCopies(s: State, name: string, v: User, hash: string)
    requires CountIn(v.tokens, hash) <= CountOf(s.users, name, hash)
    ensures Copies(s.(users := Put(s.users, name, v)), hash) <= Copies(s, hash)
  {
    TokensPut(s.users, name, v, hash);
  }

  lemma DeletedCopies(s: State, session: string, hash: string)
    requires Distinct(s.sessions)
    ensures Copies(s.(sessions := Delete(s.sessions, session)), hash) <= Copies(s, hash)
  {
    GetDelete(s.sessions, session, hash);
  }

  lemma OthersCopies(s: State, users: Users, name: string, hash: string)
    requires Distinct(s.sessions) && TokensOf(users, hash) <= TokensOf(s.users, hash)
    ensures Copies(State(users, Keep(s.sessions, NotOf(name))), hash) <= Copies(s, hash)
  {
    OthersSessions(s.sessions, name);
    assert Get(Keep(s.sessions, NotOf(name)), hash).Some? ==> Get(s.sessions, hash).Some?;
  }

  lemma ByHashCopies(s: State, shown: string, now: int, hash: string)
    requires Inv(s)
    ensures Copies(ByHash(s, shown, now).state, hash) <= Copies(s, hash)
  {
    var t := s.(sessions := Delete(s.sessions, shown));
    DeletedCopies(s, shown, hash);
    HolderIs(s.users, shown);
    if SessionUser(s, shown, now).None? && Holder(s.users, shown).Some? {
      var name := Holder(s.users, shown).value;
      var u := Get(s.users, name).value;
      CountTouched(u.tokens, shown, now, hash);
      PutCopies(t, name, u.(tokens := Touched(u.tokens, shown, now)), hash);
    }
  }

  lemma UpdatedCopies(s: State, name: string, role: Option<Role>, disabled: Option<bool>, hash: string)
    requires Inv(s)
    ensures Copies(Updated(s, name, role, disabled), hash) <= Copies(s, hash)
  {
    if Get(s.users, name).Some? {
      var v := Patched(Get(s.users, name).value, role, disabled);
      TokensPut(s.users, name, v, hash);
      OthersCopies(s, Put(s.users, name, v), name, hash);
    }
  }

  lemma TokensCopies(s: State, name: string, tokens: seq<Token>, hash: string)
    requires Get(s.users, name).Some?
    ensures Copies(ChangeTokens(s, name, tokens), hash) ==
            Copies(s, hash) - CountIn(Get(s.users, name).value.tokens, hash) + CountIn(tokens, hash)
  {
    TokensPut(s.users, name, Get(s.users, name).value.(tokens := tokens), hash);
  }

  lemma PasskeysCopies(s: State, name: string, passkeys: seq<Passkey>, hash: string)
    ensures Copies(ChangePasskeys(s, name, passkeys), hash) == Copies(s, hash)
  {
    if Get(s.users, name).Some? {
      TokensPut(s.users, name, Get(s.users, name).value.(passkeys := passkeys), hash);
    }
  }

  lemma IssuedCopies(sha: Hash, s: State, c: Call, hash: string)
    requires c.IssueToken?
    ensures Copies(Step(sha, s, c), hash) <= Copies(s, hash) + if Drawn(sha, c) == Some(hash) then 1 else 0
  {
    if Get(s.users, c.name).Some? {
      var tokens := Get(s.users, c.name).value.tokens;
      var more := [Token(c.id, sha("m5a_" + c.random), LabelOr(c.title, "token"), c.now, 0)];
      TokensCopies(s, c.name, Newest(tokens + more), hash);
      CountNewest(tokens + more, hash);
      CountAppend(tokens, more, hash);
      assert CountIn(more[1..], hash) == 0;
    }
  }

  lemma SignedInCopies(sha: Hash, s: State, c: Call, hash: string)
    requires c.PasskeySignIn? && Inv(s)
    ensures Copies(Step(sha, s, c), hash) <= Copies(s, hash) + if Drawn(sha, c) == Some(hash) then 1 else 0
  {
    if PasskeyUser(s, c.credential).Some? {
      var name, u := PasskeyHolder(s.users, c.credential).value, PasskeyUser(s, c.credential).value;
      PasskeysCopies(s, name, Used(u.passkeys, c.credential, c.signCount, c.now), hash);
      if Drawn(sha, c) != Some(hash) && Has(Step(sha, s, c).sessions, hash) {
        SessionPutHolds(s.sessions, sha("m5s_" + c.random), Session(u.name, c.now + ADMIN_SESSION_TTL_MS), hash);
      }
    }
  }

  lemma StepCopies(sha: Hash, s: State, c: Call, hash: string)
    requires Inv(s)
    ensures Copies(Step(sha, s, c), hash) <= Copies(s, hash) + if Drawn(sha, c) == Some(hash) then 1 else 0
  {
    match c
    case Authenticate(env, header, now) =>
      if TokenIn(header).Some? {
        ByHashCopies(s, sha(TokenIn(header).value), now, hash);
      }
    case Create(name, role, now) =>
      if CreateRefused(s, name).None? {
        PutCopies(s, name, User(name, role, now, false, [], []), hash);
      }
    case Update(name, role, disabled) => UpdatedCopies(s, name, role, disabled, hash);
    case Remove(name) =>
      TokensDelete(s.users, name, hash);
      OthersCopies(s, Delete(s.users, name), name, hash);
    case IssueToken(_, _, _, _, _) => IssuedCopies(sha, s, c, hash);
    case RevokeToken(name, id) =>
      if Get(s.users, name).Some? {
        CountWithout(Get(s.users, name).value.tokens, id, hash);
        TokensCopies(s, name, WithoutToken(Get(s.users, name).value.tokens, id), hash);
      }
    case AddPasskey(name, credential, count, title, now) =>
      if Get(s.users, name).Some? {
        var more := [Passkey(credential, count, LabelOr(title, "passkey"), now, 0)];
        PasskeysCopies(s, name, Newest(Get(s.users, name).value.passkeys + more), hash);
      }
    case RemovePasskey(name, credential) =>
      if Get(s.users, name).Some? {
        PasskeysCopies(s, name, WithoutPasskey(Get(s.users, name).value.passkeys, credential), hash);
      }
    case PasskeySignIn(_, _, _, _) => SignedInCopies(sha, s, c, hash);
    case EndSession(text) => DeletedCopies(s, sha(EndToken(text)), hash);
  }

  /** How often a run draws a hash. */
  function Draws(sha: Hash, calls: seq<Call>, hash: string): nat {
    if calls == [] then 0
    else
      var before, last := calls[..|calls| - 1], calls[|calls| - 1];
      Draws(sha, before, hash) + if Drawn(sha, last) == Some(hash) then 1 else 0
  }

  /** Main result: a hash has no more copies, among all tokens and sessions, than it had and was drawn since. */
  lemma {:induction false} RunCopies(sha: Hash, s: State, calls: seq<Call>, hash: string)
    requires Inv(s)
    ensures Copies(Run(sha, s, calls), hash) <= Copies(s, hash) + Draws(sha, calls, hash)
    decreases |calls|
  {
    if calls != [] {
      var before, last := calls[..|calls| - 1], calls[|calls| - 1];
      RunInv(sha, s, before);
      RunCopies(sha, s, before, hash);
      StepCopies(sha, Run(sha, s, before), last, hash);
    }
  }

  /** A hash with one copy, the token that is revoked, is held by nobody then. */
  lemma RevokedIsGone(s: State, name: string, i: nat)
    requires Get(s.users, name).Some? && i < |Get(s.users, name).value.tokens|
    requires Copies(s, Get(s.users, name).value.tokens[i].hash) <= 1
    ensures var token := Get(s.users, name).value.tokens[i];
            forall n: string :: !Holds(Revoked(s, name, token.id), n, token.hash)
  {
    var tokens := Get(s.users, name).value.tokens;
    var token := tokens[i];
    CountWithout(tokens, token.id, token.hash);
    TokensCopies(s, name, WithoutToken(tokens, token.id), token.hash);
    NoneHeld(Revoked(s, name, token.id), token.hash);
  }

  /**
   Main result: over any run from an empty directory, a token that was drawn
   once lets nobody in after it was revoked, whatever is called later but a
   draw of the same characters.
   */
  lemma RevokedStaysOut(sha: Hash, env: Env, before: seq<Call>, name: string, i: nat, after: seq<Call>,
                        header: Option<string>, now: int)
    requires EnvOk(env) && TokenIn(header).Some?
    requires var s := Run(sha, State([], []), before);
             && Get(s.users, name).Some? && i < |Get(s.users, name).value.tokens|
             && Get(s.users, name).value.tokens[i].hash == sha(TokenIn(header).value)
    requires Draws(sha, before, sha(TokenIn(header).value)) <= 1 && !DrawnBy(sha, after, sha(TokenIn(header).value))
    ensures var s := Run(sha, State([], []), before);
            var revoked := Revoked(s, name, Get(s.users, name).value.tokens[i].id);
            LetInBy(sha, env, Run(sha, revoked, after), header, now) == None
  {
    var hash := sha(TokenIn(header).value);
    var s := Run(sha, State([], []), before);
    EmptyInv();
    RunInv(sha, State([], []), before);
    RunCopies(sha, State([], []), before, hash);
    var token := Get(s.users, name).value.tokens[i];
    RevokedIsGone(s, name, i);
    var revoked := Revoked(s, name, token.id);
    StepInv(sha, s, RevokeToken(name, token.id));
    GoneStaysGone(sha, env, revoked, after, header, now);
  }
}
