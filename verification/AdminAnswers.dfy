/**
 What each call on the administrators' directory answers and leaves
 (server/admin-users.ts), told by its input and by what was there.
 */
module AdminAnswers {

  import opened Text
  import opened OrderedMap
  import opened AdminDirectory
  import opened AdminRuns

  // ---------------------------------------------------------------- names and labels

  const FIRST_CHARS := "abcdefghijklmnopqrstuvwxyz0123456789"

  const NAME_CHARS := "abcdefghijklmnopqrstuvwxyz0123456789._-"

  lemma CharsListed(c: char)
    ensures NameChar(c) <==> c in FIRST_CHARS
    ensures NameChar(c) || c in "._-" <==> c in NAME_CHARS
  {}

  /** Main result: a name is a small letter or digit and one to 31 more of those, points, underscores and hyphens. */
  lemma NamesAllowed(name: string)
    ensures GoodName(name) <==>
            2 <= |name| <= 32 && name[0] in FIRST_CHARS && forall i | 0 <= i < |name| :: name[i] in NAME_CHARS
  {
    forall c ensures (NameChar(c) <==> c in FIRST_CHARS) && (NameChar(c) || c in "._-" <==> c in NAME_CHARS) {
      CharsListed(c);
    }
  }

  /** A label is the first 40 characters of what was given, and stands for itself only when that is something. */
  lemma LabelIs(title: string, other: string)
    ensures var r := LabelOr(title, other);
            if title == "" then r == other
            else r != "" && r <= title && |r| <= 40 && (r == title || |r| == 40)
  {}

  // ---------------------------------------------------------------- who is let in

  /** The header that shows a token, with blanks around it. */
  function Shows(before: string, token: string, after: string): Option<string> {
    Some("Bearer " + (before + token + after))
  }

  predicate AllBlank(s: string) { forall i | 0 <= i < |s| :: IsSpace(s[i]) }

  /**
   Main result: a token of one to 256 characters is read from its header whatever
   blanks are around it, and no longer one.
   */
  lemma TokenShown(before: string, token: string, after: string)
    requires AllBlank(before) && AllBlank(after) && Trimmed(token)
    ensures TokenIn(Shows(before, token, after)) == if 1 <= |token| <= 256 then Some(token) else None
  {
    var all := before + token + after;
    assert ("Bearer " + all)[7..] == all;
    TrimPadded(before, token, after);
  }

  /** A header of another kind shows no token. */
  lemma NoTokenShown(header: Option<string>)
    ensures header.None? || !("Bearer " <= header.value) ==> TokenIn(header) == None
  {}

  /**
   Main result: who is let in by the token that a header shows: the one of the
   environment's single token, however short; a token of 16 characters or more
   otherwise, by the environment's list first, and then by the directory.
   */
  lemma AuthenticatedBy(sha: Hash, env: Env, s: State, header: Option<string>, now: int)
    requires Injective(sha)
    ensures var r := Authenticated(sha, env, s, header, now);
            match TokenIn(header)
            case None => r == Signed(s, None)
            case Some(token) =>
              if token == env.legacy then r == Signed(s, Some(Principal("admin", Owner, EnvToken)))
              else if |token| <= 15 then r == Signed(s, None)
              else if sha(token) in env.tokens then r == Signed(s, Some(env.tokens[sha(token)]))
              else r == ByHash(s, sha(token), now)
  {}

  // ---------------------------------------------------------------- creating

  /** What can be wrong with a new name, in the order in which it is looked at. */
  predicate Objection(s: State, name: string, k: nat) {
    match k
    case 0 => !GoodName(name)
    case 1 => name == "admin" || Get(s.users, name).Some?
    case 2 => |s.users| >= 100
    case _ => false
  }

  const OBJECTIONS := [BadName, Taken, TooMany]

  /**
   Main result: a name is refused for its first fault, and otherwise has a new,
   enabled account with nothing in it.
   */
  lemma CreatedOr(s: State, name: string, role: Role, now: int, k: nat)
    requires k < |OBJECTIONS|
    ensures CreateRefused(s, name) == Some(OBJECTIONS[k]) <==>
            Objection(s, name, k) && forall j: nat | j < k :: !Objection(s, name, j)
    ensures CreateRefused(s, name).Some? ==> Created(s, name, role, now) == s
    ensures CreateRefused(s, name).None? <==> forall j: nat :: !Objection(s, name, j)
    ensures CreateRefused(s, name).None? ==>
              && Created(s, name, role, now).sessions == s.sessions
              && Get(Created(s, name, role, now).users, name) == Some(User(name, role, now, false, [], []))
  {
    assert !(Objection(s, name, 0) || Objection(s, name, 1) || Objection(s, name, 2)) <==>
           (forall j: nat :: !Objection(s, name, j));
    GetPut(s.users, name, User(name, role, now, false, [], []), name);
  }

  // ---------------------------------------------------------------- tokens and passkeys

  function TokensAt(s: State, name: string): seq<Token> {
    match Get(s.users, name) { case None => [] case Some(u) => u.tokens }
  }

  function PasskeysAt(s: State, name: string): seq<Passkey> {
    match Get(s.users, name) { case None => [] case Some(u) => u.passkeys }
  }

  /** Nothing of an administrator has changed but the tokens. */
  predicate OnlyTokens(s: State, t: State, name: string) {
    && t.sessions == s.sessions
    && match (Get(s.users, name), Get(t.users, name))
       case (None, None) => true
       case (Some(u), Some(v)) => v == u.(tokens := v.tokens)
       case _ => false
  }

  predicate OnlyPasskeys(s: State, t: State, name: string) {
    && match (Get(s.users, name), Get(t.users, name))
       case (None, None) => true
       case (Some(u), Some(v)) => v == u.(passkeys := v.passkeys)
       case _ => false
  }

  /** Main result: a new token comes last, with its hash, label and time; the others stay, but for the first of ten. */
  lemma TokenIssued(sha: Hash, s: State, name: string, title: string, random: string, id: string, now: int)
    requires Inv(s) && Get(s.users, name).Some?
    ensures var t := Issued(sha, s, name, title, random, id, now);
            var was, after := TokensAt(s, name), TokensAt(t, name);
            && OnlyTokens(s, t, name)
            && after == (if |was| == 10 then was[1..] else was) +
                       [Token(id, sha("m5a_" + random), LabelOr(title, "token"), now, 0)]
  {
    var u := Get(s.users, name).value;
    assert Kind(name, u);
    var all := u.tokens + [Token(id, sha("m5a_" + random), LabelOr(title, "token"), now, 0)];
    GetPut(s.users, name, u.(tokens := Newest(all)), name);
    if |u.tokens| == 10 {
      assert all[1..] == u.tokens[1..] + [all[10]];
    }
  }

  /** Main result: a revoked token goes, with all of its id, and no other. */
  lemma TokenRevoked(s: State, name: string, id: string)
    ensures var t := Revoked(s, name, id);
            && OnlyTokens(s, t, name)
            && forall x :: x in TokensAt(t, name) <==> x in TokensAt(s, name) && x.id != id
  {
    if Get(s.users, name).Some? {
      var u := Get(s.users, name).value;
      GetPut(s.users, name, u.(tokens := WithoutToken(u.tokens, id)), name);
      WithoutTokenIs(u.tokens, id);
    }
  }

  lemma {:induction false} WithoutTokenIs(tokens: seq<Token>, id: string)
    ensures forall x :: x in WithoutToken(tokens, id) <==> x in tokens && x.id != id
  {
    if tokens != [] {
      WithoutTokenIs(tokens[1..], id);
      assert tokens == [tokens[0]] + tokens[1..];
    }
  }

  lemma {:induction false} WithoutPasskeyIs(passkeys: seq<Passkey>, credential: string)
    ensures forall x :: x in WithoutPasskey(passkeys, credential) <==> x in passkeys && x.credentialId != credential
  {
    if passkeys != [] {
      WithoutPasskeyIs(passkeys[1..], credential);
      assert passkeys == [passkeys[0]] + passkeys[1..];
    }
  }

  /** Main result: a removed passkey goes, and no other; nobody has it afterwards. */
  lemma PasskeyGone(s: State, name: string, credential: string)
    requires Inv(s)
    ensures var t := PasskeyRemoved(s, name, credential);
            && OnlyPasskeys(s, t, name) && t.sessions == s.sessions
            && (forall x :: x in PasskeysAt(t, name) <==> x in PasskeysAt(s, name) && x.credentialId != credential)
            && (HasCredential(s.users, name, credential) ==> PasskeyHolder(t.users, credential) == None)
  {
    var t := PasskeyRemoved(s, name, credential);
    PasskeyRemovedInv(s, name, credential);
    if Get(s.users, name).Some? {
      var u := Get(s.users, name).value;
      GetPut(s.users, name, u.(passkeys := WithoutPasskey(u.passkeys, credential)), name);
      WithoutPasskeyIs(u.passkeys, credential);
      PasskeyHolderIs(t.users, credential);
      forall n: string ensures HasCredential(s.users, name, credential) ==> !HasCredential(t.users, n, credential) {
        GetPut(s.users, name, u.(passkeys := WithoutPasskey(u.passkeys, credential)), n);
        assert n != name && HasCredential(t.users, n, credential) ==> HasCredential(s.users, n, credential);
      }
    }
  }

  /** Main result: a passkey that somebody has is not added again; another comes last, and the first of ten goes. */
  lemma PasskeyComes(s: State, name: string, credential: string, count: int, title: string, now: int)
    requires Inv(s)
    ensures var t := PasskeyAdded(s, name, credential, count, title, now);
            var was, after := PasskeysAt(s, name), PasskeysAt(t, name);
            && OnlyPasskeys(s, t, name) && t.sessions == s.sessions
            && (if Get(s.users, name).None? || exists n :: HasCredential(s.users, n, credential) then t == s
                else after == (if |was| == 10 then was[1..] else was) +
                             [Passkey(credential, count, LabelOr(title, "passkey"), now, 0)])
  {
    PasskeyHolderIs(s.users, credential);
    if Get(s.users, name).Some? && PasskeyHolder(s.users, credential).None? {
      var u := Get(s.users, name).value;
      assert Kind(name, u);
      var all := u.passkeys + [Passkey(credential, count, LabelOr(title, "passkey"), now, 0)];
      GetPut(s.users, name, u.(passkeys := Newest(all)), name);
      if |u.passkeys| == 10 {
        assert all[1..] == u.passkeys[1..] + [all[10]];
      }
    }
  }

  // ---------------------------------------------------------------- sessions

  /** Main result: a new session comes last; the others stay, but for the first of a thousand. */
  lemma SessionComes(sessions: Sessions, hash: string, x: Session)
    requires Distinct(sessions) && |sessions| <= 1000 && !Has(sessions, hash)
    ensures SessionPut(sessions, hash, x) ==
            (if |sessions| == 1000 then sessions[1..] else sessions) + [Entry(hash, x)]
  {
    PutNew(sessions, hash, x);
    if |sessions| == 1000 {
      assert (sessions + [Entry(hash, x)])[1..] == sessions[1..] + [Entry(hash, x)];
    }
  }

  /**
   Main result: who signs in by a passkey: the enabled administrator that has it,
   for eight hours; the passkey counts on.
   */
  lemma SignInBy(sha: Hash, s: State, name: string, credential: string, count: int, random: string, now: int)
    requires Inv(s) && HasCredential(s.users, name, credential)
    ensures var t := SignedIn(sha, s, credential, count, random, now);
            var u := Get(s.users, name).value;
            && OnlyPasskeys(s, t, name)
            && (if u.disabled then t == s
                else
                  && t.sessions == SessionPut(s.sessions, sha("m5s_" + random), Session(name, now + 28_800_000))
                  && |PasskeysAt(t, name)| == |u.passkeys|
                  && forall i | 0 <= i < |u.passkeys| ::
                       PasskeysAt(t, name)[i] ==
                       if u.passkeys[i].credentialId == credential
                       then u.passkeys[i].(signCount := count, lastUsedAt := now) else u.passkeys[i])
  {
    PasskeyHolderIs(s.users, credential);
    var u := Get(s.users, name).value;
    assert Kind(name, u) && PasskeyHolder(s.users, credential) == Some(name);
    UsedIs(u.passkeys, credential, count, now);
    GetPut(s.users, name, u.(passkeys := Used(u.passkeys, credential, count, now)), name);
  }

  lemma {:induction false} UsedIs(passkeys: seq<Passkey>, credential: string, count: int, now: int)
    requires OwnDistinct(passkeys)
    ensures |Used(passkeys, credential, count, now)| == |passkeys|
    ensures forall i | 0 <= i < |passkeys| ::
              Used(passkeys, credential, count, now)[i] ==
              if passkeys[i].credentialId == credential
              then passkeys[i].(signCount := count, lastUsedAt := now) else passkeys[i]
  {
    if passkeys != [] {
      UsedIs(passkeys[1..], credential, count, now);
    }
  }

  /** A token that lets somebody in is stamped with the time; no other is. */
  lemma {:induction false} TouchedIs(tokens: seq<Token>, hash: string, now: int, i: nat)
    requires i < |tokens|
    ensures |Touched(tokens, hash, now)| == |tokens|
    ensures Touched(tokens, hash, now)[i] ==
            if tokens[i].hash == hash && forall j | 0 <= j < i :: tokens[j].hash != hash
            then tokens[i].(lastUsedAt := now) else tokens[i]
  {
    TouchedSame(tokens, hash, now);
    if i > 0 && tokens[0].hash != hash {
      TouchedIs(tokens[1..], hash, now, i - 1);
      assert (forall j | 0 <= j < i :: tokens[j].hash != hash) <==>
             (forall j | 0 <= j < i - 1 :: tokens[1..][j].hash != hash) by {
        assert forall j | 0 <= j < i - 1 :: tokens[1..][j] == tokens[j + 1];
        assert forall j | 1 <= j < i :: tokens[j] == tokens[1..][j - 1];
      }
    }
  }
}
