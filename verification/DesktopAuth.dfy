/**
 The mailbox that hands a sign-in from the browser to the desktop app
 (server/desktop-auth.ts): the store of pending requests, and a ledger of each
 request that is kept from the calls and the answers alone.
 */
module DesktopAuth {

  import opened Text
  import opened Base64Url
  import opened Finite

  const MAX_PENDING := 2_000
  const MAX_PENDING_PER_ADDRESS := 20
  const MAX_POLL_FAILURES := 5

  /** SHA-256 as a function from texts to the base64url of the digest. */
  type Hash = string -> string

  /** A value from outside; `None` when it is not a string. */
  type Arg = Option<string>

  /** What `b64urlBytes` accepts: text that is just what `len` bytes are written as. */
  predicate IsBytes(v: Arg, len: nat) { v.Some? && v.value != "" && IsBytesText(v.value, len) }

  /** A raw P-256 public key: 65 bytes, of which the first is 4. */
  predicate IsPublicKey(v: Arg) { IsBytes(v, 65) && Decode(v.value)[0] == 4 }

  datatype Sealed = Sealed(epk: string, iv: string, ct: string)

  /** A sealed result from outside, field by field; `None` when it is not an object. */
  datatype SealedArg = SealedArg(epk: Arg, iv: Arg, ct: Arg)

  predicate IsSealed(v: Option<SealedArg>) {
    && v.Some? && IsPublicKey(v.value.epk) && IsBytes(v.value.iv, 12)
    && v.value.ct.Some? && AllBase64Url(v.value.ct.value) && 24 <= |v.value.ct.value| <= 16_384
  }

  function SealedOf(v: Option<SealedArg>): Sealed
    requires IsSealed(v)
  {
    Sealed(v.value.epk.value, v.value.iv.value, v.value.ct.value)
  }

  predicate IsId(id: string) { 22 <= |id| <= 64 && AllBase64Url(id) }

  datatype Entry = Entry(
    appKey: string, pollHash: string, address: string, createdAt: int, expiresAt: int,
    sealed: Option<Sealed>, completedAt: Option<int>, failures: int)

  type Table = map<string, Entry>

  function From(m: Table, address: string): set<string> { set id | id in m && m[id].address == address }

  function Unended(t: int): Entry -> bool { (x: Entry) => x.expiresAt > t }

  function Unexpired(m: Table, t: int): Table { map id | id in m && m[id].expiresAt > t :: m[id] }

  /** What `live` leaves: without the asked entry if that has expired. */
  function Looked(m: Table, id: string, t: int): Table {
    if IsId(id) && id in m && m[id].expiresAt <= t then m - {id} else m
  }

  predicate PollOk(sha: Hash, e: Entry, poll: Arg) {
    poll.Some? && |poll.value| <= 128 && sha(poll.value) == e.pollHash
  }

  // ---------------------------------------------------------------- the calls

  /** A call with the readings of the clock that it takes, and for `start` the random id. */
  datatype Call =
    | Size(t: int)
    | Start(appKey: Arg, pollHash: Arg, address: string, drawn: string, t0: int, t1: int)
    | Info(id: string, from: string, t: int)
    | Complete(id: string, result: Option<SealedArg>, t0: int, t1: int)
    | Take(id: string, poll: Arg, t: int)
    | Cancel(id: string, poll: Arg, t: int)

  datatype Reply =
    | Sized(size: nat)
    | Started(name: string, expires: int)
    | BadKey | BadHash | TooMany | TooManyHere
    | Shown(key: string, expires: int, done: bool, sameNetwork: bool)
    | Unknown
    | BadResult | AlreadyComplete | Completed
    | WrongSecret | Pending | Done(result: Sealed)
    | Cancelling(ok: bool)

  datatype Outcome = Outcome(table: Table, reply: Reply)

  function Starting(ttl: int, m: Table, c: Call): Outcome
    requires c.Start?
  {
    if !IsPublicKey(c.appKey) then Outcome(m, BadKey)
    else if !IsBytes(c.pollHash, 32) then Outcome(m, BadHash)
    else Admitted(ttl, Unexpired(m, c.t0), c.appKey.value, c.pollHash.value, c.address, c.drawn, c.t1)
  }

  /** A new request, if there is room for it. */
  function Admitted(ttl: int, kept: Table, key: string, hash: string, address: string, id: string, t: int): Outcome {
    if |kept| >= MAX_PENDING then Outcome(kept, TooMany)
    else if |From(kept, address)| >= MAX_PENDING_PER_ADDRESS then Outcome(kept, TooManyHere)
    else Outcome(kept[id := Entry(key, hash, address, t, t + ttl, None, None, 0)], Started(id, t + ttl))
  }

  function Showing(m: Table, id: string, from: string, t: int): Outcome {
    var kept := Looked(m, id, t);
    if !IsId(id) || id !in kept then Outcome(kept, Unknown)
    else
      var e := kept[id];
      Outcome(kept, Shown(e.appKey, e.expiresAt, e.sealed.Some?, e.address == from))
  }

  function Completing(m: Table, id: string, result: Option<SealedArg>, t0: int, t1: int): Outcome {
    var kept := Looked(m, id, t0);
    if !IsId(id) || id !in kept then Outcome(kept, Unknown)
    else if !IsSealed(result) then Outcome(kept, BadResult)
    else if kept[id].sealed.Some? || kept[id].completedAt.Some? then Outcome(kept, AlreadyComplete)
    else Outcome(kept[id := kept[id].(sealed := Some(SealedOf(result)), completedAt := Some(t1))], Completed)
  }

  function Taking(sha: Hash, m: Table, id: string, poll: Arg, t: int): Outcome {
    var kept := Looked(m, id, t);
    if !IsId(id) || id !in kept then Outcome(kept, Unknown)
    else
      var e := kept[id];
      if !PollOk(sha, e, poll) then
        Outcome(if e.failures + 1 >= MAX_POLL_FAILURES then kept - {id} else kept[id := e.(failures := e.failures + 1)],
                WrongSecret)
      else if e.sealed.None? then Outcome(kept, Pending)
      else Outcome(kept - {id}, Done(e.sealed.value))
  }

  function Cancelled(sha: Hash, m: Table, id: string, poll: Arg, t: int): Outcome {
    var kept := Looked(m, id, t);
    if !IsId(id) || id !in kept || !PollOk(sha, kept[id], poll) then Outcome(kept, Cancelling(false))
    else Outcome(kept - {id}, Cancelling(true))
  }

  function Step(sha: Hash, ttl: int, m: Table, c: Call): Outcome {
    match c
    case Size(t) => Outcome(Unexpired(m, t), Sized(|Unexpired(m, t)|))
    case Start(_, _, _, _, _, _) => Starting(ttl, m, c)
    case Info(id, from, t) => Showing(m, id, from, t)
    case Complete(id, result, t0, t1) => Completing(m, id, result, t0, t1)
    case Take(id, poll, t) => Taking(sha, m, id, poll, t)
    case Cancel(id, poll, t) => Cancelled(sha, m, id, poll, t)
  }

  function Run(sha: Hash, ttl: int, calls: seq<Call>): Table {
    if calls == [] then map[]
    else Step(sha, ttl, Run(sha, ttl, calls[..|calls| - 1]), calls[|calls| - 1]).table
  }

  // ---------------------------------------------------------------- the store

  class Store {
    const sha: Hash
    const ttl: int
    var entries: map<string, Entry>

    constructor (sha: Hash, ttl: int)
      ensures this.sha == sha && this.ttl == ttl && entries == map[]
    {
      this.sha, this.ttl := sha, ttl;
      entries := map[];
    }

    method Sweep(t: int)
      modifies this
      ensures entries == Unexpired(old(entries), t)
    {
      var todo := entries.Keys;
      ghost var before := entries;
      ghost var stays := Unended(t);
      KeptEnds(before, stays, Unexpired(before, t));
      while todo != {}
        invariant todo <= before.Keys && entries == Kept(before, stays, todo)
        decreases |todo|
      {
        var id :| id in todo;
        KeptStep(before, stays, todo, id);
        todo := todo - {id};
        if entries[id].expiresAt <= t {
          entries := entries - {id};
        }
      }
    }

    method Size(t: int) returns (n: nat)
      modifies this
      ensures Outcome(entries, Sized(n)) == Step(sha, ttl, old(entries), Call.Size(t))
    {
      Sweep(t);
      n := |entries|;
    }

    /** The loop of `start` over the entries of one address. */
    method CountFrom(address: string) returns (mine: nat)
      ensures mine == |From(entries, address)|
    {
      mine := 0;
      var todo := entries.Keys;
      ghost var own := From(entries, address);
      assert own - todo == {};
      while todo != {}
        invariant todo <= entries.Keys && mine == |own - todo|
        decreases |todo|
      {
        var id :| id in todo;
        OneCounted(own, todo, id);
        todo := todo - {id};
        if entries[id].address == address {
          mine := mine + 1;
        }
      }
      assert own - todo == own;
    }

    method Start(appKey: Arg, pollHash: Arg, address: string, drawn: string, t0: int, t1: int) returns (reply: Reply)
      modifies this
      ensures Outcome(entries, reply) ==
              Step(sha, ttl, old(entries), Call.Start(appKey, pollHash, address, drawn, t0, t1))
    {
      if !IsPublicKey(appKey) {
        return BadKey;
      }
      if !IsBytes(pollHash, 32) {
        return BadHash;
      }
      Sweep(t0);
      reply := Admit(appKey.value, pollHash.value, address, drawn, t1);
    }

    /** The second half of `start`, on what the sweep has left. */
    method Admit(key: string, hash: string, address: string, id: string, t: int) returns (reply: Reply)
      modifies this
      ensures Outcome(entries, reply) == Admitted(ttl, old(entries), key, hash, address, id, t)
    {
      if |entries| >= MAX_PENDING {
        return TooMany;
      }
      var mine := CountFrom(address);
      if mine >= MAX_PENDING_PER_ADDRESS {
        return TooManyHere;
      }
      entries := entries[id := Entry(key, hash, address, t, t + ttl, None, None, 0)];
      return Started(id, t + ttl);
    }

    method Live(id: string, t: int) returns (found: bool)
      modifies this
      ensures entries == Looked(old(entries), id, t) && found == (IsId(id) && id in entries)
    {
      if !IsId(id) || id !in entries {
        return false;
      }
      if entries[id].expiresAt <= t {
        entries := entries - {id};
        return false;
      }
      return true;
    }

    method Info(id: string, from: string, t: int) returns (reply: Reply)
      modifies this
      ensures Outcome(entries, reply) == Step(sha, ttl, old(entries), Call.Info(id, from, t))
    {
      var found := Live(id, t);
      if !found {
        return Unknown;
      }
      var e := entries[id];
      return Shown(e.appKey, e.expiresAt, e.sealed.Some?, e.address == from);
    }

    method Complete(id: string, result: Option<SealedArg>, t0: int, t1: int) returns (reply: Reply)
      modifies this
      ensures Outcome(entries, reply) == Step(sha, ttl, old(entries), Call.Complete(id, result, t0, t1))
    {
      var found := Live(id, t0);
      if !found {
        return Unknown;
      }
      if !IsSealed(result) {
        return BadResult;
      }
      var e := entries[id];
      if e.sealed.Some? || e.completedAt.Some? {
        return AlreadyComplete;
      }
      e := e.(sealed := Some(SealedOf(result)));
      e := e.(completedAt := Some(t1));
      entries := entries[id := e];
      return Completed;
    }

    method Take(id: string, poll: Arg, t: int) returns (reply: Reply)
      modifies this
      ensures Outcome(entries, reply) == Step(sha, ttl, old(entries), Call.Take(id, poll, t))
    {
      var found := Live(id, t);
      if !found {
        return Unknown;
      }
      var e := entries[id];
      if !PollOk(sha, e, poll) {
        e := e.(failures := e.failures + 1);
        entries := if e.failures >= MAX_POLL_FAILURES then entries - {id} else entries[id := e];
        return WrongSecret;
      }
      if e.sealed.None? {
        return Pending;
      }
      entries := entries - {id};
      return Done(e.sealed.value);
    }

    method Cancel(id: string, poll: Arg, t: int) returns (ok: bool)
      modifies this
      ensures Outcome(entries, Cancelling(ok)) == Step(sha, ttl, old(entries), Call.Cancel(id, poll, t))
    {
      var found := Live(id, t);
      if !found || !PollOk(sha, entries[id], poll) {
        return false;
      }
      entries := entries - {id};
      return true;
    }
  }

  // ---------------------------------------------------------------- the ledger of one id

  /** The latest request under an id, and what the answers say has happened to it. */
  datatype Ledger = Ledger(
    appKey: string, pollHash: string, address: string, expiresAt: int, accepted: seq<Sealed>, handed: seq<Sealed>,
    wrong: nat, cancelled: bool, expired: bool)

  predicate Open(l: Ledger) { l.handed == [] && l.wrong < MAX_POLL_FAILURES && !l.cancelled && !l.expired }

  /** A reading of the clock at or after the end has been seen. */
  function Aged(l: Option<Ledger>, t: int): Option<Ledger> {
    if l.Some? && l.value.expiresAt <= t then Some(l.value.(expired := true)) else l
  }

  /** A text that was given, as far as it is one. */
  function Given(v: Arg): string { match v case Some(s) => s case None => "" }

  /** One call and its answer, entered in the ledger of `id`. */
  function Enter(ttl: int, l: Option<Ledger>, id: string, c: Call, reply: Reply): Option<Ledger> {
    match c
    case Size(t) => Aged(l, t)
    case Start(appKey, pollHash, address, drawn, t0, t1) =>
      if reply.Started? && drawn == id
      then Some(Ledger(Given(appKey), Given(pollHash), address, t1 + ttl, [], [], 0, false, false))
      else if reply.BadKey? || reply.BadHash? then l
      else Aged(l, t0)
    case Info(i, _, t) => if i == id then Aged(l, t) else l
    case Complete(i, result, t, _) =>
      if i != id then l
      else
        var a := Aged(l, t);
        if reply.Completed? && a.Some? && IsSealed(result)
        then Some(a.value.(accepted := a.value.accepted + [SealedOf(result)])) else a
    case Take(i, _, t) =>
      if i != id then l
      else
        var a := Aged(l, t);
        if a.None? then a
        else if reply.WrongSecret? then Some(a.value.(wrong := a.value.wrong + 1))
        else if reply.Done? then Some(a.value.(handed := a.value.handed + [reply.result]))
        else a
    case Cancel(i, _, t) =>
      if i != id then l
      else
        var a := Aged(l, t);
        if reply == Cancelling(true) && a.Some? then Some(a.value.(cancelled := true)) else a
  }

  function LedgerOf(sha: Hash, ttl: int, calls: seq<Call>, id: string): Option<Ledger> {
    if calls == [] then None
    else
      var before, last := calls[..|calls| - 1], calls[|calls| - 1];
      Enter(ttl, LedgerOf(sha, ttl, before, id), id, last, Step(sha, ttl, Run(sha, ttl, before), last).reply)
  }

  /** What holds of every ledger: at most one result, handed out at most once, and that very one. */
  predicate Kind(l: Ledger) {
    |l.accepted| <= 1 && |l.handed| <= 1 && l.wrong <= MAX_POLL_FAILURES && (l.handed == [] || l.handed == l.accepted)
  }

  predicate Matches(e: Entry, l: Ledger) {
    && e.appKey == l.appKey && e.address == l.address
    && e.pollHash == l.pollHash && e.expiresAt == l.expiresAt && e.failures == l.wrong
    && e.sealed == (if l.accepted == [] then None else Some(l.accepted[0]))
    && (e.sealed.Some? <==> e.completedAt.Some?)
  }

  /** The store has an entry for `id` exactly when the ledger is open, and then they match. */
  predicate Agrees(m: Table, l: Option<Ledger>, id: string) {
    && (id in m <==> l.Some? && Open(l.value))
    && (l.Some? ==> Kind(l.value))
    && (id in m ==> Matches(m[id], l.value))
  }

  lemma AgesTogether(m: Table, l: Option<Ledger>, id: string, t: int)
    requires Agrees(m, l, id) && IsId(id)
    ensures Agrees(Unexpired(m, t), Aged(l, t), id) && Agrees(Looked(m, id, t), Aged(l, t), id)
  {}

  lemma StartAgrees(ttl: int, m: Table, l: Option<Ledger>, id: string, c: Call)
    requires Agrees(m, l, id) && IsId(id) && c.Start?
    ensures var o := Starting(ttl, m, c); Agrees(o.table, Enter(ttl, l, id, c, o.reply), id)
  {
    var o := Starting(ttl, m, c);
    AgesTogether(m, l, id, c.t0);
    if o.reply.Started? {
      var key, hash := Given(c.appKey), Given(c.pollHash);
      AdmitAgrees(ttl, Unexpired(m, c.t0), Aged(l, c.t0), id, key, hash, c.address, c.drawn, c.t1);
    }
  }

  lemma AdmitAgrees(ttl: int, kept: Table, l: Option<Ledger>, id: string, key: string, hash: string, address: string,
                    drawn: string, t: int)
    requires Agrees(kept, l, id)
    ensures var o := Admitted(ttl, kept, key, hash, address, drawn, t);
            Agrees(o.table, if o.reply.Started? && drawn == id
                            then Some(Ledger(key, hash, address, t + ttl, [], [], 0, false, false)) else l, id)
  {}

  lemma CompleteAgrees(ttl: int, m: Table, l: Option<Ledger>, id: string, i: string, result: Option<SealedArg>,
                       t0: int, t1: int)
    requires Agrees(m, l, id) && IsId(id)
    ensures var o := Completing(m, i, result, t0, t1); Agrees(o.table,
            Enter(ttl, l, id, Complete(i, result, t0, t1), o.reply), id)
  {
    AgesTogether(m, l, id, t0);
  }

  lemma TakeAgrees(sha: Hash, ttl: int, m: Table, l: Option<Ledger>, id: string, i: string, poll: Arg, t: int)
    requires Agrees(m, l, id) && IsId(id)
    ensures var o := Taking(sha, m, i, poll, t); Agrees(o.table, Enter(ttl, l, id, Take(i, poll, t), o.reply), id)
  {
    AgesTogether(m, l, id, t);
  }

  lemma StepAgrees(sha: Hash, ttl: int, m: Table, l: Option<Ledger>, id: string, c: Call)
    requires Agrees(m, l, id) && IsId(id)
    ensures var o := Step(sha, ttl, m, c); Agrees(o.table, Enter(ttl, l, id, c, o.reply), id)
  {
    match c
    case Size(t) => AgesTogether(m, l, id, t);
    case Start(_, _, _, _, _, _) => StartAgrees(ttl, m, l, id, c);
    case Info(_, _, t) => AgesTogether(m, l, id, t);
    case Complete(i, result, t0, t1) => CompleteAgrees(ttl, m, l, id, i, result, t0, t1);
    case Take(i, poll, t) => TakeAgrees(sha, ttl, m, l, id, i, poll, t);
    case Cancel(_, _, t) => AgesTogether(m, l, id, t);
  }

  /**
   Main result: over any run, the request under an id has accepted at most one
   result and handed out at most that one, once; and the store has it exactly
   while it is neither handed out, nor ended by five wrong secrets, nor
   cancelled, nor seen to be over.
   */
  lemma {:induction false} LedgerAgrees(sha: Hash, ttl: int, calls: seq<Call>, id: string)
    requires IsId(id)
    ensures Agrees(Run(sha, ttl, calls), LedgerOf(sha, ttl, calls, id), id)
    decreases |calls|
  {
    if calls != [] {
      var before, last := calls[..|calls| - 1], calls[|calls| - 1];
      LedgerAgrees(sha, ttl, before, id);
      StepAgrees(sha, ttl, Run(sha, ttl, before), LedgerOf(sha, ttl, before, id), id, last);
    }
  }

  /** The answer to every call about a request, from its ledger alone. */
  function Told(sha: Hash, l: Option<Ledger>, c: Call): Reply
    requires c.Info? || c.Complete? || c.Take? || c.Cancel?
  {
    var open := l.Some? && Open(l.value);
    match c
    case Info(_, from, _) =>
      if !open then Unknown
      else Shown(l.value.appKey, l.value.expiresAt, l.value.accepted != [], from == l.value.address)
    case Complete(_, result, _, _) =>
      if !open then Unknown
      else if !IsSealed(result) then BadResult
      else if l.value.accepted != [] then AlreadyComplete
      else Completed
    case Take(_, poll, _) =>
      if !open then Unknown
      else if !Knows(sha, l.value, poll) then WrongSecret
      else if l.value.accepted == [] then Pending
      else Done(l.value.accepted[0])
    case Cancel(_, poll, _) => Cancelling(open && Knows(sha, l.value, poll))
  }

  /** A poll secret of at most 128 characters that the request was started with. */
  predicate Knows(sha: Hash, l: Ledger, poll: Arg) {
    match poll case None => false case Some(secret) => |secret| <= 128 && sha(secret) == l.pollHash
  }

  function IdOf(c: Call): string
    requires c.Info? || c.Complete? || c.Take? || c.Cancel?
  {
    match c case Info(i, _, _) => i case Complete(i, _, _, _) => i case Take(i, _, _) => i case Cancel(i, _, _) => i
  }

  /** The first reading of the clock in a call. */
  function ClockOf(c: Call): int
    requires c.Info? || c.Complete? || c.Take? || c.Cancel?
  {
    match c case Info(_, _, t) => t case Complete(_, _, t, _) => t case Take(_, _, t) => t case Cancel(_, _, t) => t
  }

  /**
   Main result: over any run every call about a request is answered as its
   ledger says: what the page is shown, whether a result is accepted, and what
   the app gets.
   */
  lemma AnswersTold(sha: Hash, ttl: int, calls: seq<Call>, c: Call)
    requires c.Info? || c.Complete? || c.Take? || c.Cancel?
    requires IsId(IdOf(c))
    ensures Step(sha, ttl, Run(sha, ttl, calls), c).reply ==
            Told(sha, Aged(LedgerOf(sha, ttl, calls, IdOf(c)), ClockOf(c)), c)
  {
    var m, l := Run(sha, ttl, calls), LedgerOf(sha, ttl, calls, IdOf(c));
    LedgerAgrees(sha, ttl, calls, IdOf(c));
    AgesTogether(m, l, IdOf(c), ClockOf(c));
    TableTold(sha, ttl, m, l, c);
  }

  lemma TableTold(sha: Hash, ttl: int, m: Table, l: Option<Ledger>, c: Call)
    requires c.Info? || c.Complete? || c.Take? || c.Cancel?
    requires IsId(IdOf(c)) && Agrees(Looked(m, IdOf(c), ClockOf(c)), Aged(l, ClockOf(c)), IdOf(c))
    ensures Step(sha, ttl, m, c).reply == Told(sha, Aged(l, ClockOf(c)), c)
  {}

  /** A call with a name that is no id is answered as one about a request that is not there. */
  lemma NoIdUnknown(sha: Hash, ttl: int, m: Table, c: Call)
    requires (c.Info? || c.Complete? || c.Take? || c.Cancel?) && !IsId(IdOf(c))
    ensures Step(sha, ttl, m, c) == Outcome(m, Told(sha, None, c))
  {}

  /**
   Main result: a request starts exactly when the key is 65 bytes of which the
   first is 4, the hash is 32 bytes, and there is room for it among all and
   among those of its address; under the id that was drawn, for as long as set.
   */
  lemma StartAnswer(sha: Hash, ttl: int, m: Table, c: Call)
    requires c.Start?
    ensures var kept := Unexpired(m, c.t0);
            var key, hash := Given(c.appKey), Given(c.pollHash);
            Step(sha, ttl, m, c).reply ==
            if key == "" || !IsBytesText(key, 65) || Decode(key)[0] != 4 then BadKey
            else if hash == "" || !IsBytesText(hash, 32) then BadHash
            else if |kept| >= 2000 then TooMany
            else if |set id | id in kept && kept[id].address == c.address| >= 20 then TooManyHere
            else Started(c.drawn, c.t1 + ttl)
  {
    var kept := Unexpired(m, c.t0);
    KeyIs(c.appKey);
    BytesIs(c.pollHash, 32);
    AdmitAnswer(ttl, kept, Given(c.appKey), Given(c.pollHash), c.address, c.drawn, c.t1);
    StartReply(sha, ttl, m, c);
  }

  lemma StartReply(sha: Hash, ttl: int, m: Table, c: Call)
    requires c.Start?
    ensures Step(sha, ttl, m, c).reply ==
            if !IsPublicKey(c.appKey) then BadKey
            else if !IsBytes(c.pollHash, 32) then BadHash
            else Admitted(ttl, Unexpired(m, c.t0), Given(c.appKey), Given(c.pollHash), c.address, c.drawn, c.t1).reply
  {}

  lemma AdmitAnswer(ttl: int, kept: Table, key: string, hash: string, address: string, drawn: string, t: int)
    ensures Admitted(ttl, kept, key, hash, address, drawn, t).reply ==
            if |kept| >= 2000 then TooMany
            else if |set id | id in kept && kept[id].address == address| >= 20 then TooManyHere
            else Started(drawn, t + ttl)
  {
    assert From(kept, address) == set id | id in kept && kept[id].address == address;
  }

  lemma BytesIs(v: Arg, len: nat)
    ensures IsBytes(v, len) <==> Given(v) != "" && IsBytesText(Given(v), len)
  {}

  lemma KeyIs(v: Arg)
    ensures IsPublicKey(v) <==> Given(v) != "" && IsBytesText(Given(v), 65) && Decode(Given(v))[0] == 4
  {}

  /** Main result: a result is handed out exactly to who gives the secret of an open request that has one. */
  lemma HandedExactly(sha: Hash, ttl: int, calls: seq<Call>, id: string, secret: string, poll: string, t: int)
    requires IsId(id) && Injective(sha) && |secret| <= 128
    requires LedgerOf(sha, ttl, calls, id).Some? && LedgerOf(sha, ttl, calls, id).value.pollHash == sha(secret)
    ensures var l := Aged(LedgerOf(sha, ttl, calls, id), t).value;
            var reply := Taking(sha, Run(sha, ttl, calls), id, Some(poll), t).reply;
            && (reply.Done? <==> Open(l) && l.accepted != [] && poll == secret)
            && (reply.Done? ==> reply == Done(l.accepted[0]) && t < l.expiresAt)
  {
    var m, l := Run(sha, ttl, calls), LedgerOf(sha, ttl, calls, id);
    LedgerAgrees(sha, ttl, calls, id);
    AgesTogether(m, l, id, t);
  }

  /** Main result: a result is accepted exactly by an open request that has none yet. */
  lemma AcceptedExactly(sha: Hash, ttl: int, calls: seq<Call>, id: string, result: Option<SealedArg>, t0: int, t1: int)
    requires IsId(id)
    ensures var l := Aged(LedgerOf(sha, ttl, calls, id), t0);
            Completing(Run(sha, ttl, calls), id, result, t0, t1).reply.Completed? <==>
            IsSealed(result) && l.Some? && Open(l.value) && l.value.accepted == []
  {
    var m, l := Run(sha, ttl, calls), LedgerOf(sha, ttl, calls, id);
    LedgerAgrees(sha, ttl, calls, id);
    AgesTogether(m, l, id, t0);
  }

  /** The call starts a request under the id. */
  predicate Starts(sha: Hash, ttl: int, m: Table, c: Call, id: string) {
    c.Start? && var reply := Step(sha, ttl, m, c).reply; reply.Started? && reply.name == id
  }

  lemma OverStep(sha: Hash, ttl: int, calls: seq<Call>, id: string, c: Call)
    requires IsId(id) && LedgerOf(sha, ttl, calls, id).Some? && !Open(LedgerOf(sha, ttl, calls, id).value)
    requires !Starts(sha, ttl, Run(sha, ttl, calls), c, id)
    ensures var l := LedgerOf(sha, ttl, calls + [c], id);
            && l.Some? && !Open(l.value)
            && l.value.accepted == LedgerOf(sha, ttl, calls, id).value.accepted
            && l.value.handed == LedgerOf(sha, ttl, calls, id).value.handed
  {
    assert (calls + [c])[..|calls|] == calls;
    LedgerAgrees(sha, ttl, calls, id);
  }

  /** One of the calls from `n` on started a request under the id. */
  predicate Restarted(sha: Hash, ttl: int, calls: seq<Call>, n: nat, id: string)
    requires n <= |calls|
    decreases |calls|
  {
    n < |calls| &&
    var before, last := calls[..|calls| - 1], calls[|calls| - 1];
    Restarted(sha, ttl, before, n, id) || Starts(sha, ttl, Run(sha, ttl, before), last, id)
  }

  /**
   Main result: a request that is over stays over, with what it has accepted
   and handed out, until a new one starts under its id; nothing is handed out.
   */
  lemma {:induction false} StaysOver(sha: Hash, ttl: int, calls: seq<Call>, n: nat, id: string)
    requires IsId(id) && n <= |calls| && !Restarted(sha, ttl, calls, n, id)
    requires LedgerOf(sha, ttl, calls[..n], id).Some? && !Open(LedgerOf(sha, ttl, calls[..n], id).value)
    ensures var l, was := LedgerOf(sha, ttl, calls, id), LedgerOf(sha, ttl, calls[..n], id).value;
            l.Some? && !Open(l.value) && l.value.accepted == was.accepted && l.value.handed == was.handed
    ensures id !in Run(sha, ttl, calls)
    ensures forall poll: Arg, t: int :: !Taking(sha, Run(sha, ttl, calls), id, poll, t).reply.Done?
    decreases |calls|
  {
    LedgerAgrees(sha, ttl, calls, id);
    if n < |calls| {
      var before, last := calls[..|calls| - 1], calls[|calls| - 1];
      assert before[..n] == calls[..n] && before + [last] == calls;
      StaysOver(sha, ttl, before, n, id);
      OverStep(sha, ttl, before, id, last);
    } else {
      assert calls[..n] == calls;
    }
  }

  /** Wrong secrets given to `cancel` are not counted: they leave the request as it was. */
  lemma CancelDoesNotCount(sha: Hash, ttl: int, m: Table, id: string, poll: Arg, t: int)
    requires id in m && m[id].expiresAt > t && !PollOk(sha, m[id], poll)
    ensures Step(sha, ttl, m, Cancel(id, poll, t)) == Outcome(m, Cancelling(false))
  {}

  // ---------------------------------------------------------------- what is accepted from outside

  /** Main result: a sealed result is a public key, twelve bytes, and 24 to 16,384 digits; it is stored as it came. */
  lemma SealedIs(v: SealedArg)
    ensures IsSealed(Some(v)) <==>
            && IsPublicKey(v.epk) && IsBytes(v.iv, 12)
            && AllBase64Url(Given(v.ct)) && 24 <= |Given(v.ct)| <= 16384
    ensures IsSealed(Some(v)) ==>
              var x := SealedOf(Some(v)); x.epk == Given(v.epk) && x.iv == Given(v.iv) && x.ct == Given(v.ct)
    ensures !IsSealed(None)
  {}

  /** A public key is what 65 bytes are written as, of which the first is 4; an id has 22 to 64 digits. */
  lemma KeysAndIds(bytes: seq<Byte>, id: string)
    requires bytes != []
    ensures IsBytes(Some(Encode(bytes)), |bytes|) && Decode(Encode(bytes)) == bytes
    ensures IsPublicKey(Some(Encode(bytes))) <==> |bytes| == 65 && bytes[0] == 4
    ensures IsId(id) <==> AllBase64Url(id) && !(|id| <= 21) && !(|id| >= 65)
  {
    DecodeEncode(bytes);
    assert |Decode(Encode(bytes))| > 0;
  }

  // ---------------------------------------------------------------- the caps

  ghost predicate Capped(m: Table) {
    |m| <= MAX_PENDING && forall a: string :: |From(m, a)| <= MAX_PENDING_PER_ADDRESS
  }

  lemma FewerCapped(m: Table, n: Table)
    requires Capped(m) && n.Keys <= m.Keys && forall id :: id in n ==> n[id].address == m[id].address
    ensures Capped(n)
  {
    SubsetSize(n.Keys, m.Keys);
    forall a: string ensures |From(n, a)| <= MAX_PENDING_PER_ADDRESS {
      SubsetSize(From(n, a), From(m, a));
    }
  }

  lemma OneMoreCapped(m: Table, id: string, e: Entry)
    requires Capped(m) && |m| < MAX_PENDING && |From(m, e.address)| < MAX_PENDING_PER_ADDRESS
    ensures Capped(m[id := e])
  {
    var n := m[id := e];
    assert n.Keys == m.Keys + {id};
    OneMore(m.Keys, n.Keys, id);
    forall a: string ensures |From(n, a)| <= MAX_PENDING_PER_ADDRESS {
      if a == e.address {
        OneMore(From(m, a), From(n, a), id);
      } else {
        SubsetSize(From(n, a), From(m, a));
      }
    }
  }

  /** No call but `start` adds an entry or moves one to another address. */
  lemma StepShrinks(sha: Hash, ttl: int, m: Table, c: Call)
    requires !c.Start?
    ensures var n := Step(sha, ttl, m, c).table;
            n.Keys <= m.Keys && forall id :: id in n ==> n[id].address == m[id].address
  {}

  lemma StepCapped(sha: Hash, ttl: int, m: Table, c: Call)
    requires Capped(m)
    ensures Capped(Step(sha, ttl, m, c).table)
  {
    if c.Start? {
      FewerCapped(m, Unexpired(m, c.t0));
      if Starting(ttl, m, c).reply.Started? {
        OneMoreCapped(Unexpired(m, c.t0), c.drawn, Starting(ttl, m, c).table[c.drawn]);
      }
    } else {
      StepShrinks(sha, ttl, m, c);
      FewerCapped(m, Step(sha, ttl, m, c).table);
    }
  }

  /** Main result: over any run at most 2,000 requests are pending, and at most 20 from one address. */
  lemma {:induction false} RunCapped(sha: Hash, ttl: int, calls: seq<Call>)
    ensures Capped(Run(sha, ttl, calls))
    decreases |calls|
  {
    if calls == [] {
      forall a: string ensures From(map[], a) == {} {}
    } else {
      RunCapped(sha, ttl, calls[..|calls| - 1]);
      StepCapped(sha, ttl, Run(sha, ttl, calls[..|calls| - 1]), calls[|calls| - 1]);
    }
  }
}
