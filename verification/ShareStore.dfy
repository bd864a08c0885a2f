/**
 The server half of the split-key invitations (server/share.ts): the store of
 invitations, and a ledger that is kept from the calls and the answers alone.
 */
module ShareStore {

  import opened Text
  import opened Base64Url
  import opened Finite

  const MAX_LINKS := 2000
  const MAX_PER_OWNER := 50
  const MAX_USES := 50
  const MIN_TTL_SEC := 5 * 60
  const MAX_TTL_SEC := 7 * 24 * 60 * 60
  const DEFAULT_TTL_SEC := 24 * 60 * 60
  const MAX_ATTEMPTS := 5
  const MAX_CIPHERTEXT_CHARS := 4096
  const ID_LEN := 22
  const KEY_LEN := 43
  const IV_LEN := 16

  /** SHA-256 as a function on texts. */
  type Hash = string -> string

  /** A value from outside; `None` when it is not a string. */
  type Arg = Option<string>

  predicate IsB64Url(v: Arg, len: nat) { v.Some? && |v.value| == len && AllBase64Url(v.value) }

  /** A number from outside, after JavaScript's `Number`. */
  datatype Num = Undefined | Integer(n: int) | NotAnInteger

  /** The limit per owner from SHARE_MAX_PER_IP; `None` when that is not a number. */
  function PerOwner(env: Option<int>): nat {
    match env
    case Some(n) => if 1 <= n <= MAX_LINKS then n else MAX_PER_OWNER
    case None => MAX_PER_OWNER
  }

  datatype Secret = Secret(serverKey: string, iv: string, ciphertext: string)

  /** A stored invitation. The owner is `None` when the address is not counted. */
  datatype Share = Share(
    owner: Option<string>, proofHash: string, revokeHash: string, secret: Secret,
    maxUses: int, usesLeft: int, attemptsLeft: int, createdAt: int, expiresAt: int)

  type Table = map<string, Share>

  datatype Input = Input(
    id: Arg, proof: Arg, revokeToken: Arg, serverKey: Arg, iv: Arg, ciphertext: Arg, maxUses: Num, ttlSec: Num)

  datatype Reason =
    | BadId | BadProof | BadRevokeToken | BadServerKey | BadIv | BadCiphertext | BadMaxUses | BadTtl
    | Exists | TooManyForAddress | Full

  datatype Reply =
    | Created(expires: int, uses: int)
    | Refused(reason: Reason)
    | Released(secret: Secret, left: int, expires: int)
    | NotFound
    | WrongCode(attempts: int)
    | Burned
    | Revoking(done: bool)

  function Uses(n: Num): Option<int> {
    match n
    case Undefined => Some(1)
    case Integer(k) => if 1 <= k <= MAX_USES then Some(k) else None
    case NotAnInteger => None
  }

  function Ttl(n: Num): Option<int> {
    match n
    case Undefined => Some(DEFAULT_TTL_SEC)
    case Integer(k) => if MIN_TTL_SEC <= k <= MAX_TTL_SEC then Some(k) else None
    case NotAnInteger => None
  }

  predicate GoodCiphertext(v: Arg) {
    v.Some? && 24 <= |v.value| <= MAX_CIPHERTEXT_CHARS && AllBase64Url(v.value)
  }

  /** What is wrong with an input, the first fault first. */
  function Fault(input: Input): Option<Reason> {
    if !IsB64Url(input.id, ID_LEN) then Some(BadId)
    else if !IsB64Url(input.proof, KEY_LEN) then Some(BadProof)
    else if !IsB64Url(input.revokeToken, KEY_LEN) then Some(BadRevokeToken)
    else if !IsB64Url(input.serverKey, KEY_LEN) then Some(BadServerKey)
    else if !IsB64Url(input.iv, IV_LEN) then Some(BadIv)
    else if !GoodCiphertext(input.ciphertext) then Some(BadCiphertext)
    else if Uses(input.maxUses) == None then Some(BadMaxUses)
    else if Ttl(input.ttlSec) == None then Some(BadTtl)
    else None
  }

  /** The owner key of an address group; an empty group is not counted. */
  function OwnerKey(sha: Hash, group: string): Option<string> {
    if group == "" then None else Some(sha("m5cet:share-owner:" + group))
  }

  function Owned(m: Table, owner: Option<string>): set<string> { set id | id in m && m[id].owner == owner }

  function Unended(t: int): Share -> bool { (x: Share) => x.expiresAt > t }

  function Live(m: Table, t: int): Table { map id | id in m && m[id].expiresAt > t :: m[id] }

  function Crowded(limit: nat, m: Table, id: string, owner: Option<string>): Option<Reason> {
    if id in m then Some(Exists)
    else if owner != None && |Owned(m, owner)| >= limit then Some(TooManyForAddress)
    else if |m| >= MAX_LINKS then Some(Full)
    else None
  }

  function Fresh(sha: Hash, input: Input, owner: Option<string>, t: int): Share
    requires Fault(input) == None
  {
    var uses := Uses(input.maxUses).value;
    Share(owner, sha(input.proof.value), sha(input.revokeToken.value),
          Secret(input.serverKey.value, input.iv.value, input.ciphertext.value),
          uses, uses, MAX_ATTEMPTS, t, t + Ttl(input.ttlSec).value * 1000)
  }

  // ---------------------------------------------------------------- the calls

  /** A call with the readings of the clock that it takes; `create` takes two. */
  datatype Call =
    | Create(input: Input, group: string, t0: int, t1: int)
    | Redeem(id: Arg, proof: Arg, t: int)
    | Revoke(id: Arg, token: Arg)

  datatype Outcome = Outcome(table: Table, reply: Reply)

  function Creating(sha: Hash, limit: nat, m: Table, input: Input, group: string, t0: int, t1: int): Outcome {
    var kept := Live(m, t0);
    match Fault(input)
    case Some(reason) => Outcome(kept, Refused(reason))
    case None =>
      var owner := OwnerKey(sha, group);
      match Crowded(limit, kept, input.id.value, owner)
      case Some(reason) => Outcome(kept, Refused(reason))
      case None =>
        var share := Fresh(sha, input, owner, t1);
        Outcome(kept[input.id.value := share], Created(share.expiresAt, share.maxUses))
  }

  function Redeeming(sha: Hash, m: Table, id: Arg, proof: Arg, t: int): Outcome {
    var kept := Live(m, t);
    if !IsB64Url(id, ID_LEN) || !IsB64Url(proof, KEY_LEN) || id.value !in kept then Outcome(kept, NotFound)
    else
      var s := kept[id.value];
      if sha(proof.value) != s.proofHash then
        if s.attemptsLeft - 1 <= 0 then Outcome(kept - {id.value}, Burned)
        else Outcome(kept[id.value := s.(attemptsLeft := s.attemptsLeft - 1)], WrongCode(s.attemptsLeft - 1))
      else
        Outcome(if s.usesLeft - 1 <= 0 then kept - {id.value} else kept[id.value := s.(usesLeft := s.usesLeft - 1)],
                Released(s.secret, s.usesLeft - 1, s.expiresAt))
  }

  function Revoked(sha: Hash, m: Table, id: Arg, token: Arg): Outcome {
    if !IsB64Url(id, ID_LEN) || !IsB64Url(token, KEY_LEN) || id.value !in m then Outcome(m, Revoking(false))
    else if sha(token.value) != m[id.value].revokeHash then Outcome(m, Revoking(false))
    else Outcome(m - {id.value}, Revoking(true))
  }

  function Step(sha: Hash, limit: nat, m: Table, c: Call): Outcome {
    match c
    case Create(input, group, t0, t1) => Creating(sha, limit, m, input, group, t0, t1)
    case Redeem(id, proof, t) => Redeeming(sha, m, id, proof, t)
    case Revoke(id, token) => Revoked(sha, m, id, token)
  }

  function Run(sha: Hash, limit: nat, calls: seq<Call>): Table {
    if calls == [] then map[]
    else Step(sha, limit, Run(sha, limit, calls[..|calls| - 1]), calls[|calls| - 1]).table
  }

  // ---------------------------------------------------------------- the store

  class Store {
    const sha: Hash
    var records: map<string, Share>

    constructor (sha: Hash)
      ensures this.sha == sha && records == map[]
    {
      this.sha := sha;
      records := map[];
    }

    method Gc(t: int)
      modifies this
      ensures records == Live(old(records), t)
    {
      var todo := records.Keys;
      ghost var before := records;
      ghost var stays := Unended(t);
      KeptEnds(before, stays, Live(before, t));
      while todo != {}
        invariant todo <= before.Keys && records == Kept(before, stays, todo)
        decreases |todo|
      {
        var id :| id in todo;
        KeptStep(before, stays, todo, id);
        todo := todo - {id};
        if records[id].expiresAt <= t {
          records := records - {id};
        }
      }
    }

    method OwnedBy(owner: Option<string>) returns (n: nat)
      ensures n == |Owned(records, owner)|
    {
      n := 0;
      var todo := records.Keys;
      ghost var own := Owned(records, owner);
      assert own - todo == {};
      while todo != {}
        invariant todo <= records.Keys && n == |own - todo|
        decreases |todo|
      {
        var id :| id in todo;
        OneCounted(own, todo, id);
        todo := todo - {id};
        if records[id].owner == owner {
          n := n + 1;
        }
      }
      assert own - todo == own;
    }

    method Create(input: Input, group: string, env: Option<int>, t0: int, t1: int) returns (reply: Reply)
      modifies this
      ensures Outcome(records, reply) == Creating(sha, PerOwner(env), old(records), input, group, t0, t1)
    {
      Gc(t0);
      var fault := Fault(input);
      if fault.Some? {
        return Refused(fault.value);
      }
      var id := input.id.value;
      if id in records {
        return Refused(Exists);
      }
      var owner := OwnerKey(sha, group);
      if owner != None {
        var n := OwnedBy(owner);
        if n >= PerOwner(env) {
          return Refused(TooManyForAddress);
        }
      }
      if |records| >= MAX_LINKS {
        return Refused(Full);
      }
      var maxUses, ttl := Uses(input.maxUses).value, Ttl(input.ttlSec).value;
      var expiresAt := t1 + ttl * 1000;
      var secret := Secret(input.serverKey.value, input.iv.value, input.ciphertext.value);
      records := records[id := Share(owner, sha(input.proof.value), sha(input.revokeToken.value), secret,
                                     maxUses, maxUses, MAX_ATTEMPTS, t1, expiresAt)];
      return Created(expiresAt, maxUses);
    }

    method Redeem(id: Arg, proof: Arg, t: int) returns (reply: Reply)
      modifies this
      ensures Outcome(records, reply) == Redeeming(sha, old(records), id, proof, t)
    {
      Gc(t);
      if !IsB64Url(id, ID_LEN) || !IsB64Url(proof, KEY_LEN) {
        return NotFound;
      }
      if id.value !in records {
        return NotFound;
      }
      var rec := records[id.value];
      if sha(proof.value) != rec.proofHash {
        rec := rec.(attemptsLeft := rec.attemptsLeft - 1);
        if rec.attemptsLeft <= 0 {
          records := records - {id.value};
          return Burned;
        }
        records := records[id.value := rec];
        return WrongCode(rec.attemptsLeft);
      }
      rec := rec.(usesLeft := rec.usesLeft - 1);
      records := if rec.usesLeft <= 0 then records - {id.value} else records[id.value := rec];
      return Released(rec.secret, rec.usesLeft, rec.expiresAt);
    }

    method Revoke(id: Arg, token: Arg) returns (done: bool)
      modifies this
      ensures Outcome(records, Revoking(done)) == Revoked(sha, old(records), id, token)
    {
      if !IsB64Url(id, ID_LEN) || !IsB64Url(token, KEY_LEN) || id.value !in records {
        return false;
      }
      if sha(token.value) != records[id.value].revokeHash {
        return false;
      }
      records := records - {id.value};
      return true;
    }
  }

  // ---------------------------------------------------------------- the ledger of one id

  /** The latest invitation made with an id, and what has happened to it. */
  datatype Ledger = Ledger(
    group: string, proof: string, token: string, secret: Secret, maxUses: int, expiresAt: int,
    released: nat, wrong: nat, revoked: bool, expired: bool)

  predicate Open(l: Ledger) { l.released < l.maxUses && l.wrong < MAX_ATTEMPTS && !l.revoked && !l.expired }

  /** A reading of the clock at or after the end has been seen. */
  function Aged(l: Option<Ledger>, t: int): Option<Ledger> {
    if l.Some? && l.value.expiresAt <= t then Some(l.value.(expired := true)) else l
  }

  /** How often a created invitation may be used: as often as asked, or once. */
  function AskedUses(input: Input): int { match input.maxUses case Integer(k) => k case _ => 1 }

  /** How many seconds it lives: as many as asked, or a day. */
  function AskedSeconds(input: Input): int { match input.ttlSec case Integer(k) => k case _ => 86_400 }

  /** A text that was asked for, as far as it is one. */
  function Given(v: Arg): string { match v case Some(s) => s case None => "" }

  function Opened(input: Input, group: string, t: int): Ledger {
    Ledger(group, Given(input.proof), Given(input.revokeToken),
           Secret(Given(input.serverKey), Given(input.iv), Given(input.ciphertext)),
           AskedUses(input), t + 1000 * AskedSeconds(input), 0, 0, false, false)
  }

  /** One call and its answer, entered in the ledger of `id`. */
  function Enter(l: Option<Ledger>, id: string, c: Call, reply: Reply): Option<Ledger> {
    match c
    case Create(input, group, t0, t1) =>
      if reply.Created? && input.id == Some(id) then Some(Opened(input, group, t1)) else Aged(l, t0)
    case Redeem(rid, _, t) =>
      var a := Aged(l, t);
      if rid != Some(id) || a.None? then a
      else if reply.Released? then Some(a.value.(released := a.value.released + 1))
      else if reply.WrongCode? || reply.Burned? then Some(a.value.(wrong := a.value.wrong + 1))
      else a
    case Revoke(rid, _) =>
      if rid == Some(id) && reply == Revoking(true) && l.Some? then Some(l.value.(revoked := true)) else l
  }

  function LedgerOf(sha: Hash, limit: nat, calls: seq<Call>, id: string): Option<Ledger> {
    if calls == [] then None
    else
      var before, last := calls[..|calls| - 1], calls[|calls| - 1];
      Enter(LedgerOf(sha, limit, before, id), id, last, Step(sha, limit, Run(sha, limit, before), last).reply)
  }

  /** A record and the ledger of its id say the same. */
  predicate Matches(sha: Hash, s: Share, l: Ledger) {
    && s.owner == OwnerKey(sha, l.group)
    && s.proofHash == sha(l.proof) && s.revokeHash == sha(l.token) && s.secret == l.secret
    && s.maxUses == l.maxUses && s.expiresAt == l.expiresAt
    && s.usesLeft + l.released == l.maxUses && s.attemptsLeft + l.wrong == MAX_ATTEMPTS
    && s.usesLeft > 0 && s.attemptsLeft > 0
  }

  predicate Kind(l: Ledger) { l.released <= l.maxUses && l.wrong <= MAX_ATTEMPTS }

  /** The store has a record of `id` exactly when the ledger is open, and then they match. */
  predicate Agrees(sha: Hash, m: Table, l: Option<Ledger>, id: string) {
    && (id in m <==> l.Some? && Open(l.value))
    && (l.Some? ==> Kind(l.value))
    && (id in m ==> Matches(sha, m[id], l.value))
  }

  lemma AgesTogether(sha: Hash, m: Table, l: Option<Ledger>, id: string, t: int)
    requires Agrees(sha, m, l, id)
    ensures Agrees(sha, Live(m, t), Aged(l, t), id)
  {}

  lemma CreateAgrees(sha: Hash, limit: nat, m: Table, l: Option<Ledger>, id: string, c: Call)
    requires Agrees(sha, m, l, id) && c.Create?
    ensures var o := Step(sha, limit, m, c); Agrees(sha, o.table, Enter(l, id, c, o.reply), id)
  {
    AgesTogether(sha, m, l, id, c.t0);
  }

  lemma RedeemAgrees(sha: Hash, m: Table, l: Option<Ledger>, id: string, rid: Arg, proof: Arg, t: int)
    requires Agrees(sha, m, l, id)
    ensures var o := Redeeming(sha, m, rid, proof, t); Agrees(sha, o.table,
            Enter(l, id, Redeem(rid, proof, t), o.reply), id)
  {
    AgesTogether(sha, m, l, id, t);
  }

  /** Main result: over any run, what the ledger says and what the store holds agree. */
  lemma {:induction false} LedgerAgrees(sha: Hash, limit: nat, calls: seq<Call>, id: string)
    ensures Agrees(sha, Run(sha, limit, calls), LedgerOf(sha, limit, calls, id), id)
    decreases |calls|
  {
    if calls != [] {
      var before, last := calls[..|calls| - 1], calls[|calls| - 1];
      var m, l := Run(sha, limit, before), LedgerOf(sha, limit, before, id);
      LedgerAgrees(sha, limit, before, id);
      match last
      case Create(_, _, _, _) => CreateAgrees(sha, limit, m, l, id, last);
      case Redeem(rid, proof, t) => RedeemAgrees(sha, m, l, id, rid, proof, t);
      case Revoke(_, _) =>
    }
  }

  /** Main result: successful redemptions and uses left make up the uses, wrong codes and attempts left make five. */
  lemma Conserved(sha: Hash, limit: nat, calls: seq<Call>, id: string)
    requires id in Run(sha, limit, calls)
    ensures LedgerOf(sha, limit, calls, id).Some?
    ensures var s, l := Run(sha, limit, calls)[id], LedgerOf(sha, limit, calls, id).value;
            && l.released + s.usesLeft == s.maxUses && l.wrong + s.attemptsLeft == MAX_ATTEMPTS
            && s.usesLeft > 0 && s.attemptsLeft > 0
  {
    LedgerAgrees(sha, limit, calls, id);
  }

  /**
   Main result: a redemption releases a secret exactly when the code is the
   creator's and the invitation has uses left, fewer than five wrong codes, no
   revocation and no end at or before now. It is the secret put in.
   */
  lemma ReleasedExactly(sha: Hash, limit: nat, calls: seq<Call>, id: string, proof: string, t: int)
    requires Injective(sha)
    ensures var l := Aged(LedgerOf(sha, limit, calls, id), t);
            var reply := Redeeming(sha, Run(sha, limit, calls), Some(id), Some(proof), t).reply;
            && (reply.Released? <==>
                IsB64Url(Some(id), ID_LEN) && IsB64Url(Some(proof), KEY_LEN)
                && l.Some? && Open(l.value) && proof == l.value.proof)
            && (reply.Released? ==>
                reply == Released(l.value.secret, l.value.maxUses - l.value.released - 1, l.value.expiresAt)
                && t < l.value.expiresAt)
  {
    var m := Run(sha, limit, calls);
    LedgerAgrees(sha, limit, calls, id);
    AgesTogether(sha, m, LedgerOf(sha, limit, calls, id), id, t);
  }

  /** The answer to every redemption, from the ledger alone. */
  function Redeemed(l: Option<Ledger>, id: string, proof: Arg): Reply {
    if l.None? || !Open(l.value) || !IsB64Url(Some(id), ID_LEN) || !IsB64Url(proof, KEY_LEN) then NotFound
    else
      var x := l.value;
      if proof.value == x.proof then Released(x.secret, x.maxUses - x.released - 1, x.expiresAt)
      else if x.wrong == 4 then Burned
      else WrongCode(4 - x.wrong)
  }

  /**
   Main result: over any run every redemption is answered as the ledger says: the
   secret put in with the uses then left, the tries then left, or that the fifth
   wrong code ended it.
   */
  lemma RedeemAnswer(sha: Hash, limit: nat, calls: seq<Call>, id: string, proof: Arg, t: int)
    requires Injective(sha)
    ensures Redeeming(sha, Run(sha, limit, calls), Some(id), proof, t).reply ==
            Redeemed(Aged(LedgerOf(sha, limit, calls, id), t), id, proof)
  {
    var m := Run(sha, limit, calls);
    LedgerAgrees(sha, limit, calls, id);
    AgesTogether(sha, m, LedgerOf(sha, limit, calls, id), id, t);
  }

  /** Main result: a revocation is done exactly with the creator's token, for an invitation that is open. */
  lemma RevokeAnswer(sha: Hash, limit: nat, calls: seq<Call>, id: string, token: string)
    requires Injective(sha)
    ensures var l := LedgerOf(sha, limit, calls, id);
            Revoked(sha, Run(sha, limit, calls), Some(id), Some(token)).reply ==
            Revoking(IsB64Url(Some(id), ID_LEN) && IsB64Url(Some(token), KEY_LEN)
                     && l.Some? && Open(l.value) && token == l.value.token)
  {
    LedgerAgrees(sha, limit, calls, id);
  }

  // ---------------------------------------------------------------- creating

  /** The text has just so many base64url digits. */
  predicate HasDigits(v: Arg, n: nat) {
    match v case None => false case Some(s) => |s| == n && forall c | c in s :: IsBase64Url(c)
  }

  /** The fields of an input in the order in which they are looked at, and what is asked of each. */
  predicate FieldOk(input: Input, k: nat) {
    match k
    case 0 => HasDigits(input.id, 22)
    case 1 => HasDigits(input.proof, 43)
    case 2 => HasDigits(input.revokeToken, 43)
    case 3 => HasDigits(input.serverKey, 43)
    case 4 => HasDigits(input.iv, 16)
    case 5 => input.ciphertext.Some? && 24 <= |input.ciphertext.value| <= 4096 && AllBase64Url(input.ciphertext.value)
    case 6 => input.maxUses != NotAnInteger && 1 <= AskedUses(input) <= 50
    case 7 => input.ttlSec != NotAnInteger && 300 <= AskedSeconds(input) <= 604_800
    case _ => true
  }

  lemma DigitsAre(v: Arg, n: nat)
    ensures IsB64Url(v, n) <==> HasDigits(v, n)
  {
    if HasDigits(v, n) {
      assert forall i | 0 <= i < |v.value| :: v.value[i] in v.value;
    }
  }

  const FAULTS := [BadId, BadProof, BadRevokeToken, BadServerKey, BadIv, BadCiphertext, BadMaxUses, BadTtl]

  /** Main result: an input is refused for its first field that is not as asked, and for nothing else. */
  lemma FirstFault(input: Input, k: nat)
    requires k < |FAULTS|
    ensures Fault(input) == Some(FAULTS[k]) <==> !FieldOk(input, k) && forall j: nat | j < k :: FieldOk(input, j)
    ensures Fault(input) == None <==> forall j: nat :: FieldOk(input, j)
  {
    assert forall v: Arg, n: nat :: IsB64Url(v, n) <==> HasDigits(v, n) by {
      forall v: Arg, n: nat ensures IsB64Url(v, n) <==> HasDigits(v, n) {
        DigitsAre(v, n);
      }
    }
    assert (FieldOk(input, 0) && FieldOk(input, 1) && FieldOk(input, 2) && FieldOk(input, 3)
            && FieldOk(input, 4) && FieldOk(input, 5) && FieldOk(input, 6) && FieldOk(input, 7)) <==>
           (forall j: nat :: FieldOk(input, j));
  }

  /**
   Main result: over any run, a good input makes an invitation exactly when its
   id has no open one, its owner has room, and all together have room; it may be
   used as often as asked, and ends as many seconds later as asked.
   */
  lemma CreateAnswer(sha: Hash, limit: nat, calls: seq<Call>, id: string, c: Call)
    requires c.Create? && Fault(c.input) == None && c.input.id == Some(id)
    ensures var l := Aged(LedgerOf(sha, limit, calls, id), c.t0);
            var kept := Live(Run(sha, limit, calls), c.t0);
            var owner := OwnerKey(sha, c.group);
            var reply := Step(sha, limit, Run(sha, limit, calls), c).reply;
            && (id in kept <==> l.Some? && Open(l.value))
            && reply ==
               if id in kept then Refused(Exists)
               else if c.group != "" && |Owned(kept, owner)| >= limit then Refused(TooManyForAddress)
               else if |kept| >= MAX_LINKS then Refused(Full)
               else Created(c.t1 + 1000 * AskedSeconds(c.input), AskedUses(c.input))
  {
    LedgerAgrees(sha, limit, calls, id);
    AgesTogether(sha, Run(sha, limit, calls), LedgerOf(sha, limit, calls, id), id, c.t0);
  }

  /** The limit per owner is the set one, when that is from 1 to 2,000, and otherwise 50. */
  lemma PerOwnerIs(n: int)
    ensures PerOwner(Some(n)) == if n < 1 || n > 2000 then 50 else n
    ensures PerOwner(None) == 50
  {}

  /** Main result: the invitations that count for an address group are the open ones that it has made. */
  lemma OwnedIs(sha: Hash, limit: nat, calls: seq<Call>, group: string, id: string, t: int)
    requires Injective(sha) && group != ""
    ensures var l := Aged(LedgerOf(sha, limit, calls, id), t);
            id in Owned(Live(Run(sha, limit, calls), t), OwnerKey(sha, group)) <==>
            l.Some? && Open(l.value) && l.value.group == group
  {
    var l := LedgerOf(sha, limit, calls, id);
    LedgerAgrees(sha, limit, calls, id);
    AgesTogether(sha, Run(sha, limit, calls), l, id, t);
    if l.Some? {
      SameOwner(sha, l.value.group, group);
    }
  }

  lemma SameOwner(sha: Hash, a: string, b: string)
    requires Injective(sha)
    ensures OwnerKey(sha, a) == OwnerKey(sha, b) <==> a == b
  {
    var p := "m5cet:share-owner:";
    assert (p + a)[|p|..] == a && (p + b)[|p|..] == b;
  }

  // ---------------------------------------------------------------- what is closed stays closed

  lemma ClosedStep(sha: Hash, limit: nat, calls: seq<Call>, id: string, c: Call)
    requires LedgerOf(sha, limit, calls, id).Some? && !Open(LedgerOf(sha, limit, calls, id).value)
    ensures var l := LedgerOf(sha, limit, calls + [c], id);
            && l.Some?
            && (Open(l.value) <==>
                c.Create? && c.input.id == Some(id) && Step(sha, limit, Run(sha, limit, calls), c).reply.Created?)
  {
    assert (calls + [c])[..|calls|] == calls;
    LedgerAgrees(sha, limit, calls, id);
    LedgerAgrees(sha, limit, calls + [c], id);
  }

  /** One of the calls from `n` on made a new invitation under the id. */
  predicate Remade(sha: Hash, limit: nat, calls: seq<Call>, n: nat, id: string)
    requires n <= |calls|
    decreases |calls|
  {
    n < |calls| &&
    var before, last := calls[..|calls| - 1], calls[|calls| - 1];
    || Remade(sha, limit, before, n, id)
    || (last.Create? && last.input.id == Some(id) && Step(sha, limit, Run(sha, limit, before), last).reply.Created?)
  }

  /**
   Main result: a closed invitation is never open again, and nothing is released for
   its id, until a new one is made under it.
   */
  lemma {:induction false} StaysClosed(sha: Hash, limit: nat, calls: seq<Call>, n: nat, id: string)
    requires n <= |calls| && !Remade(sha, limit, calls, n, id)
    requires LedgerOf(sha, limit, calls[..n], id).Some? && !Open(LedgerOf(sha, limit, calls[..n], id).value)
    ensures LedgerOf(sha, limit, calls, id).Some? && !Open(LedgerOf(sha, limit, calls, id).value)
    ensures id !in Run(sha, limit, calls)
    ensures forall proof: Arg, t: int :: !Redeeming(sha, Run(sha, limit, calls), Some(id), proof, t).reply.Released?
    decreases |calls|
  {
    LedgerAgrees(sha, limit, calls, id);
    if n < |calls| {
      var before, last := calls[..|calls| - 1], calls[|calls| - 1];
      assert before[..n] == calls[..n] && before + [last] == calls;
      StaysClosed(sha, limit, before, n, id);
      ClosedStep(sha, limit, before, id, last);
    } else {
      assert calls[..n] == calls;
    }
  }

  // ---------------------------------------------------------------- the caps

  ghost predicate Capped(limit: nat, m: Table) {
    && |m| <= MAX_LINKS
    && forall owner: Option<string> :: owner != None ==> |Owned(m, owner)| <= limit
  }

  lemma FewerCapped(limit: nat, m: Table, n: Table)
    requires Capped(limit, m) && n.Keys <= m.Keys && forall id :: id in n ==> n[id].owner == m[id].owner
    ensures Capped(limit, n)
  {
    SubsetSize(n.Keys, m.Keys);
    forall owner: Option<string> | owner != None ensures |Owned(n, owner)| <= limit {
      SubsetSize(Owned(n, owner), Owned(m, owner));
    }
  }

  lemma OneMoreCapped(limit: nat, m: Table, id: string, s: Share)
    requires Capped(limit, m) && Crowded(limit, m, id, s.owner) == None
    ensures Capped(limit, m[id := s])
  {
    var n := m[id := s];
    assert n.Keys == m.Keys + {id};
    forall owner: Option<string> | owner != None ensures |Owned(n, owner)| <= limit {
      if owner == s.owner {
        OneMore(Owned(m, owner), Owned(n, owner), id);
      } else {
        assert Owned(n, owner) == Owned(m, owner);
      }
    }
  }

  lemma StepCapped(limit: nat, sha: Hash, m: Table, c: Call)
    requires Capped(limit, m)
    ensures Capped(limit, Step(sha, limit, m, c).table)
  {
    match c
    case Create(input, group, t0, t1) =>
      FewerCapped(limit, m, Live(m, t0));
      var owner := OwnerKey(sha, group);
      if Fault(input) == None && Crowded(limit, Live(m, t0), input.id.value, owner) == None {
        OneMoreCapped(limit, Live(m, t0), input.id.value, Fresh(sha, input, owner, t1));
      }
    case Redeem(_, _, _) => FewerCapped(limit, m, Step(sha, limit, m, c).table);
    case Revoke(_, _) => FewerCapped(limit, m, Step(sha, limit, m, c).table);
  }

  /** Main result: over any run there are at most 2,000 invitations, and at most the limit for one address group. */
  lemma {:induction false} RunCapped(sha: Hash, limit: nat, calls: seq<Call>)
    ensures Capped(limit, Run(sha, limit, calls))
    decreases |calls|
  {
    if calls == [] {
      forall owner: Option<string> ensures Owned(map[], owner) == {} {}
    } else {
      RunCapped(sha, limit, calls[..|calls| - 1]);
      StepCapped(limit, sha, Run(sha, limit, calls[..|calls| - 1]), calls[|calls| - 1]);
    }
  }
}
