/**
 The relay of encrypted file chunks (server/file-proxy.ts). The store keeps its
 transfers, an index of them by sender and a counter; the specification keeps
 the transfers alone.
 */
module FileProxy {

  import opened Text
  import opened Finite
  import Base64Url

  const MAX_BYTES := 10 * 1024 * 1024 * 1024
  const TRANSFER_TTL_MS := 10 * 60 * 1000
  const MAX_PARALLEL_PER_PEER := 4
  const MAX_PARALLEL_TOTAL := 64
  const MAX_PARALLEL_PER_ADDRESS := 16
  const MAX_SEQ := 1_000_000

  /** The limit per address from FILE_PROXY_MAX_PER_IP; `None` when that is not a number. */
  function PerAddress(env: Option<int>): (n: nat)
    ensures 1 <= n <= MAX_PARALLEL_TOTAL
  {
    match env
    case Some(n) => if 1 <= n <= MAX_PARALLEL_TOTAL then n else MAX_PARALLEL_PER_ADDRESS
    case None => MAX_PARALLEL_PER_ADDRESS
  }

  datatype Transfer = Transfer(
    sender: string, address: string, size: int, created: int, lastActivity: int,
    seqs: set<int>, bytes: int, cancelled: bool)

  datatype Reason =
    | InvalidId | Duplicate | ServerFull | PerPeerCap | TooLarge | PerAddressCap
    | NotFound | WrongSender | Cancelled | BadSeq

  /** The transfers by id: all that the specification knows. */
  type Table = map<string, Transfer>

  function OfSender(m: Table, sender: string): set<string> { set id | id in m && m[id].sender == sender }

  function OfAddress(m: Table, address: string): set<string> { set id | id in m && m[id].address == address }

  /** The id that `begin` works with. */
  function ShortId(id: string): string { if |id| > 128 then id[..128] else id }

  predicate GoodId(id: string) { 4 <= |id| <= 128 && forall i | 0 <= i < |id| :: IsBase64Url(id[i]) }

  datatype Opening = Opening(sender: string, id: string, address: string, size: int, now: int)

  /** Why a transfer is not begun, the first reason first. */
  function Refusal(limit: nat, m: Table, o: Opening): Option<Reason> {
    if !GoodId(ShortId(o.id)) then Some(InvalidId)
    else if ShortId(o.id) in m then Some(Duplicate)
    else if |m| >= MAX_PARALLEL_TOTAL then Some(ServerFull)
    else if |OfSender(m, o.sender)| >= MAX_PARALLEL_PER_PEER then Some(PerPeerCap)
    else if o.size > MAX_BYTES then Some(TooLarge)
    else if o.address != "" && |OfAddress(m, o.address)| >= limit then Some(PerAddressCap)
    else None
  }

  predicate Expired(t: Transfer, now: int) { now - t.lastActivity > TRANSFER_TTL_MS }

  function InUse(now: int): Transfer -> bool { (x: Transfer) => !Expired(x, now) }

  function Alive(m: Table, now: int): Table { map id | id in m && !Expired(m[id], now) :: m[id] }

  function Opened(o: Opening): Transfer { Transfer(o.sender, o.address, o.size, o.now, o.now, {}, 0, false) }

  function Begun(limit: nat, m: Table, o: Opening): Result<Table, Reason> {
    match Refusal(limit, m, o)
    case Some(reason) => Err(reason)
    case None => Ok(Alive(m, o.now)[ShortId(o.id) := Opened(o)])
  }

  /** A chunk; the size of its body is counted from the base64 text unless it is given. */
  datatype Chunk = Chunk(sender: string, id: string, number: int, ciphertext: string, bytes: Option<int>, now: int)

  function BytesOf(c: Chunk): int { match c.bytes { case Some(n) => n case None => |c.ciphertext| * 3 / 4 } }

  function Pushed(m: Table, c: Chunk): Result<Table, Reason> {
    if c.id !in m then Err(NotFound)
    else
      var t := m[c.id];
      if t.sender != c.sender then Err(WrongSender)
      else if t.cancelled then Err(Cancelled)
      else if c.number < 0 || c.number > MAX_SEQ then Err(BadSeq)
      else if t.bytes + BytesOf(c) > MAX_BYTES then Err(TooLarge)
      else Ok(m[c.id := t.(seqs := t.seqs + {c.number}, bytes := t.bytes + BytesOf(c), lastActivity := c.now)])
  }

  function Ended(m: Table, sender: string, id: string, now: int): Result<Table, Reason> {
    if id !in m then Err(NotFound)
    else if m[id].sender != sender then Err(WrongSender)
    else Ok(m[id := m[id].(lastActivity := now)])
  }

  // ---------------------------------------------------------------- the index by sender

  /** Every sender with transfers, and which ones. */
  function Index(m: Table): map<string, set<string>> {
    map p | p in (set id | id in m :: m[id].sender) :: OfSender(m, p)
  }

  lemma IndexAt(m: Table, sender: string)
    ensures sender in Index(m) <==> OfSender(m, sender) != {}
    ensures OfSender(m, sender) == if sender in Index(m) then Index(m)[sender] else {}
  {
    if sender in Index(m) {
      var id :| id in m && m[id].sender == sender;
      assert id in OfSender(m, sender);
    }
    if OfSender(m, sender) != {} {
      var id :| id in OfSender(m, sender);
    }
  }

  lemma SameIndex(m: Table, index: map<string, set<string>>)
    requires forall p :: p in index <==> OfSender(m, p) != {}
    requires forall p :: p in index ==> index[p] == OfSender(m, p)
    ensures index == Index(m)
  {
    forall p ensures p in index <==> p in Index(m) {
      IndexAt(m, p);
    }
  }

  lemma IndexInsert(m: Table, id: string, t: Transfer)
    requires id !in m
    ensures Index(m[id := t]) == Index(m)[t.sender := OfSender(m, t.sender) + {id}]
  {
    var n := m[id := t];
    forall p ensures OfSender(n, p) == OfSender(m, p) + if p == t.sender then {id} else {} {}
    forall p ensures p in Index(m) <==> OfSender(m, p) != {} {
      IndexAt(m, p);
    }
    SameIndex(n, Index(m)[t.sender := OfSender(m, t.sender) + {id}]);
  }

  lemma IndexTouch(m: Table, id: string, t: Transfer)
    requires id in m && t.sender == m[id].sender
    ensures Index(m[id := t]) == Index(m) && |m[id := t]| == |m|
  {
    var n := m[id := t];
    assert n.Keys == m.Keys;
    forall p ensures OfSender(n, p) == OfSender(m, p) {}
    forall p ensures p in Index(m) <==> OfSender(m, p) != {} {
      IndexAt(m, p);
    }
    SameIndex(n, Index(m));
  }

  /** What `finalize` does to the index: an empty set does not stay. */
  function Unindexed(index: map<string, set<string>>, sender: string, id: string): map<string, set<string>>
    requires sender in index
  {
    if index[sender] - {id} == {} then index - {sender} else index[sender := index[sender] - {id}]
  }

  lemma IndexRemove(m: Table, id: string)
    requires id in m
    ensures m[id].sender in Index(m) && Index(m - {id}) == Unindexed(Index(m), m[id].sender, id)
    ensures |m - {id}| == |m| - 1
  {
    var n, sender := m - {id}, m[id].sender;
    assert m.Keys == n.Keys + {id};
    assert id in OfSender(m, sender);
    IndexAt(m, sender);
    forall p ensures OfSender(n, p) == OfSender(m, p) - if p == sender then {id} else {} {}
    forall p ensures p in Index(m) <==> OfSender(m, p) != {} {
      IndexAt(m, p);
    }
    SameIndex(n, Unindexed(Index(m), sender, id));
  }

  lemma WithoutOneMore(m: Table, ids: set<string>, todo: set<string>, id: string)
    requires id in todo && todo <= ids
    ensures m - (ids - (todo - {id})) == (m - (ids - todo)) - {id}
  {}

  // ---------------------------------------------------------------- the store

  class Proxy {
    var byTransfer: map<string, Transfer>
    var byPeer: map<string, set<string>>
    var totalActive: int

    /** The index and the counter say just what the transfers say. */
    ghost predicate Valid()
      reads this
    {
      byPeer == Index(byTransfer) && totalActive == |byTransfer|
    }

    constructor ()
      ensures Valid() && byTransfer == map[]
    {
      byTransfer, byPeer, totalActive := map[], map[], 0;
    }

    method ActiveFrom(address: string) returns (n: nat)
      ensures n == |OfAddress(byTransfer, address)|
    {
      n := 0;
      var todo := byTransfer.Keys;
      ghost var own := OfAddress(byTransfer, address);
      assert own - todo == {};
      while todo != {}
        invariant todo <= byTransfer.Keys && n == |own - todo|
        decreases |todo|
      {
        var id :| id in todo;
        OneCounted(own, todo, id);
        todo := todo - {id};
        if byTransfer[id].address == address {
          n := n + 1;
        }
      }
      assert own - todo == own;
    }

    method Begin(env: Option<int>, sender: string, frameId: string, address: string, size: int, now: int)
      returns (reply: Result<bool, Reason>)
      requires Valid()
      modifies this
      ensures Valid()
      ensures match Begun(PerAddress(env), old(byTransfer), Opening(sender, frameId, address, size, now)) {
                case Ok(m) => reply == Ok(true) && byTransfer == m
                case Err(reason) => reply == Err(reason) && byTransfer == old(byTransfer)
              }
    {
      var id := ShortId(frameId);
      if !GoodId(id) {
        return Err(InvalidId);
      }
      if id in byTransfer {
        return Err(Duplicate);
      }
      if totalActive >= MAX_PARALLEL_TOTAL {
        return Err(ServerFull);
      }
      var peerSet := if sender in byPeer then byPeer[sender] else {};
      IndexAt(byTransfer, sender);
      if |peerSet| >= MAX_PARALLEL_PER_PEER {
        return Err(PerPeerCap);
      }
      if size > MAX_BYTES {
        return Err(TooLarge);
      }
      if address != "" {
        var active := ActiveFrom(address);
        if active >= PerAddress(env) {
          return Err(PerAddressCap);
        }
      }
      Insert(id, Transfer(sender, address, size, now, now, {}, 0, false), peerSet);
      Gc(now);
      return Ok(true);
    }

    /** The updates that store a new transfer. */
    method Insert(id: string, t: Transfer, peerSet: set<string>)
      requires Valid() && id !in byTransfer && peerSet == OfSender(byTransfer, t.sender)
      modifies this
      ensures Valid() && byTransfer == old(byTransfer)[id := t]
    {
      IndexInsert(byTransfer, id, t);
      byTransfer := byTransfer[id := t];
      byPeer := byPeer[t.sender := peerSet + {id}];
      totalActive := totalActive + 1;
    }

    method PushChunk(c: Chunk) returns (reply: Result<nat, Reason>)
      requires Valid()
      modifies this
      ensures Valid()
      ensures match Pushed(old(byTransfer), c) {
                case Ok(m) => byTransfer == m && reply == Ok(|m[c.id].seqs|)
                case Err(reason) => reply == Err(reason) && byTransfer == old(byTransfer)
              }
    {
      if c.id !in byTransfer {
        return Err(NotFound);
      }
      var t := byTransfer[c.id];
      if t.sender != c.sender {
        return Err(WrongSender);
      }
      if t.cancelled {
        return Err(Cancelled);
      }
      if c.number < 0 || c.number > MAX_SEQ {
        return Err(BadSeq);
      }
      var bytes := match c.bytes { case Some(n) => n case None => |c.ciphertext| * 3 / 4 };
      if t.bytes + bytes > MAX_BYTES {
        return Err(TooLarge);
      }
      t := t.(seqs := t.seqs + {c.number});
      t := t.(bytes := t.bytes + bytes);
      t := t.(lastActivity := c.now);
      Touch(c.id, t);
      return Ok(|t.seqs|);
    }

    /** A stored transfer changes in place: it keeps its id and its sender. */
    method Touch(id: string, t: Transfer)
      requires Valid() && id in byTransfer && t.sender == byTransfer[id].sender
      modifies this
      ensures Valid() && byTransfer == old(byTransfer)[id := t] && byPeer == old(byPeer)
    {
      IndexTouch(byTransfer, id, t);
      byTransfer := byTransfer[id := t];
    }

    method End(sender: string, id: string, now: int) returns (reply: Result<bool, Reason>)
      requires Valid()
      modifies this
      ensures Valid()
      ensures match Ended(old(byTransfer), sender, id, now) {
                case Ok(m) => reply == Ok(true) && byTransfer == m
                case Err(reason) => reply == Err(reason) && byTransfer == old(byTransfer)
              }
    {
      if id !in byTransfer {
        return Err(NotFound);
      }
      if byTransfer[id].sender != sender {
        return Err(WrongSender);
      }
      Touch(id, byTransfer[id].(lastActivity := now));
      return Ok(true);
    }

    method Cancel(id: string) returns (reply: Result<bool, Reason>)
      requires Valid()
      modifies this
      ensures Valid() && byTransfer == old(byTransfer) - {id}
      ensures reply == if id in old(byTransfer) then Ok(true) else Err(NotFound)
    {
      if id !in byTransfer {
        return Err(NotFound);
      }
      MarkCancelled(id);
      Finalize(id);
      return Ok(true);
    }

    /** The sender's connection went: all its transfers end, and no other. */
    method DropSender(sender: string) returns (ids: set<string>)
      requires Valid()
      modifies this
      ensures Valid() && ids == OfSender(old(byTransfer), sender) && byTransfer == old(byTransfer) - ids
    {
      ids := if sender in byPeer then byPeer[sender] else {};
      IndexAt(byTransfer, sender);
      ghost var before := byTransfer;
      var todo := ids;
      assert before == before - (ids - todo);
      while todo != {}
        invariant Valid() && todo <= ids && byTransfer == before - (ids - todo)
        decreases |todo|
      {
        var id :| id in todo;
        WithoutOneMore(before, ids, todo, id);
        todo := todo - {id};
        if id in byTransfer {
          MarkCancelled(id);
        }
        Finalize(id);
      }
      assert ids - todo == ids;
    }

    method MarkCancelled(id: string)
      requires Valid() && id in byTransfer
      modifies this
      ensures Valid() && byTransfer - {id} == old(byTransfer) - {id}
    {
      Touch(id, byTransfer[id].(cancelled := true));
    }

    method HasRoomForNewTransfer(now: int) returns (room: bool)
      requires Valid()
      modifies this
      ensures Valid() && byTransfer == Alive(old(byTransfer), now) && room == (|byTransfer| < MAX_PARALLEL_TOTAL)
    {
      Gc(now);
      room := totalActive < MAX_PARALLEL_TOTAL;
    }

    method Finalize(id: string)
      requires Valid()
      modifies this
      ensures Valid() && byTransfer == old(byTransfer) - {id}
    {
      if id !in byTransfer {
        return;
      }
      IndexRemove(byTransfer, id);
      var sender := byTransfer[id].sender;
      if sender in byPeer {
        var peerSet := byPeer[sender] - {id};
        byPeer := if peerSet == {} then byPeer - {sender} else byPeer[sender := peerSet];
      }
      byTransfer := byTransfer - {id};
      totalActive := if totalActive - 1 > 0 then totalActive - 1 else 0;
    }

    /** Drops what has been idle for too long, deleting while it walks the transfers. */
    method Gc(now: int)
      requires Valid()
      modifies this
      ensures Valid() && byTransfer == Alive(old(byTransfer), now)
    {
      var todo := byTransfer.Keys;
      ghost var before := byTransfer;
      ghost var stays := InUse(now);
      KeptEnds(before, stays, Alive(before, now));
      while todo != {}
        invariant Valid() && todo <= before.Keys && byTransfer == Kept(before, stays, todo)
        decreases |todo|
      {
        var id :| id in todo;
        KeptStep(before, stays, todo, id);
        todo := todo - {id};
        if now - byTransfer[id].lastActivity > TRANSFER_TTL_MS {
          MarkCancelled(id);
          Finalize(id);
        }
      }
    }
  }

  // ---------------------------------------------------------------- any run of calls

  datatype Call =
    | BeginCall(opening: Opening)
    | PushCall(chunk: Chunk)
    | EndCall(sender: string, id: string, now: int)
    | CancelCall(id: string)
    | DropCall(sender: string)
    | RoomCall(now: int)

  function Or(r: Result<Table, Reason>, m: Table): Table { match r { case Ok(n) => n case Err(_) => m } }

  function Step(limit: nat, m: Table, c: Call): Table {
    match c
    case BeginCall(o) => Or(Begun(limit, m, o), m)
    case PushCall(chunk) => Or(Pushed(m, chunk), m)
    case EndCall(sender, id, now) => Or(Ended(m, sender, id, now), m)
    case CancelCall(id) => m - {id}
    case DropCall(sender) => m - OfSender(m, sender)
    case RoomCall(now) => Alive(m, now)
  }

  function Run(limit: nat, calls: seq<Call>): Table {
    if calls == [] then map[] else Step(limit, Run(limit, calls[..|calls| - 1]), calls[|calls| - 1])
  }

  predicate WithinLimits(t: Transfer) {
    !t.cancelled && t.size <= MAX_BYTES && t.bytes <= MAX_BYTES && forall s | s in t.seqs :: 0 <= s <= MAX_SEQ
  }

  ghost predicate Capped(limit: nat, m: Table) {
    && |m| <= MAX_PARALLEL_TOTAL
    && (forall p: string :: |OfSender(m, p)| <= MAX_PARALLEL_PER_PEER)
    && (forall a: string :: a != "" ==> |OfAddress(m, a)| <= limit)
    && (forall id :: id in m ==> GoodId(id) && WithinLimits(m[id]))
  }

  lemma FewerCapped(limit: nat, m: Table, n: Table)
    requires Capped(limit, m) && n.Keys <= m.Keys && forall id :: id in n ==> n[id] == m[id]
    ensures Capped(limit, n)
  {
    SubsetSize(n.Keys, m.Keys);
    forall p: string ensures |OfSender(n, p)| <= MAX_PARALLEL_PER_PEER {
      SubsetSize(OfSender(n, p), OfSender(m, p));
    }
    forall a: string | a != "" ensures |OfAddress(n, a)| <= limit {
      SubsetSize(OfAddress(n, a), OfAddress(m, a));
    }
  }

  lemma OneMoreCapped(limit: nat, m: Table, o: Opening)
    requires Capped(limit, m) && Refusal(limit, m, o) == None
    ensures Capped(limit, m[ShortId(o.id) := Opened(o)])
  {
    var id := ShortId(o.id);
    var n := m[id := Opened(o)];
    assert n.Keys == m.Keys + {id};
    forall p: string ensures |OfSender(n, p)| <= MAX_PARALLEL_PER_PEER {
      if p == o.sender {
        OneMore(OfSender(m, p), OfSender(n, p), id);
      } else {
        assert OfSender(n, p) == OfSender(m, p);
      }
    }
    forall a: string | a != "" ensures |OfAddress(n, a)| <= limit {
      if a == o.address {
        OneMore(OfAddress(m, a), OfAddress(n, a), id);
      } else {
        assert OfAddress(n, a) == OfAddress(m, a);
      }
    }
  }

  lemma TouchCapped(limit: nat, m: Table, id: string, t: Transfer)
    requires Capped(limit, m) && id in m && t.sender == m[id].sender && t.address == m[id].address && WithinLimits(t)
    ensures Capped(limit, m[id := t])
  {
    var n := m[id := t];
    assert n.Keys == m.Keys;
    forall p: string ensures OfSender(n, p) == OfSender(m, p) {}
    forall a: string ensures OfAddress(n, a) == OfAddress(m, a) {}
  }

  lemma BeginCapped(limit: nat, m: Table, o: Opening)
    requires Capped(limit, m) && Begun(limit, m, o).Ok?
    ensures Capped(limit, Begun(limit, m, o).value)
  {
    var more := m[ShortId(o.id) := Opened(o)];
    OneMoreCapped(limit, m, o);
    FewerCapped(limit, more, Begun(limit, m, o).value);
  }

  lemma StepCapped(limit: nat, m: Table, c: Call)
    requires Capped(limit, m)
    ensures Capped(limit, Step(limit, m, c))
  {
    match c
    case BeginCall(o) =>
      if Begun(limit, m, o).Ok? {
        BeginCapped(limit, m, o);
      }
    case PushCall(chunk) =>
      if Pushed(m, chunk).Ok? {
        TouchCapped(limit, m, chunk.id, Pushed(m, chunk).value[chunk.id]);
      }
    case EndCall(sender, id, now) =>
      if Ended(m, sender, id, now).Ok? {
        TouchCapped(limit, m, id, m[id].(lastActivity := now));
      }
    case CancelCall(id) => FewerCapped(limit, m, m - {id});
    case DropCall(sender) => FewerCapped(limit, m, m - OfSender(m, sender));
    case RoomCall(now) => FewerCapped(limit, m, Alive(m, now));
  }

  /** Main result: after any calls all the caps hold and no stored transfer is cancelled. */
  lemma {:induction false} RunCapped(limit: nat, calls: seq<Call>)
    ensures Capped(limit, Run(limit, calls))
    decreases |calls|
  {
    if calls == [] {
      forall p: string ensures OfSender(map[], p) == {} {}
      forall a: string ensures OfAddress(map[], a) == {} {}
    } else {
      RunCapped(limit, calls[..|calls| - 1]);
      StepCapped(limit, Run(limit, calls[..|calls| - 1]), calls[|calls| - 1]);
    }
  }

  /** The branch for a cancelled transfer is never taken. */
  lemma NeverCancelled(limit: nat, calls: seq<Call>, c: Chunk)
    ensures Pushed(Run(limit, calls), c) != Err(Cancelled)
  {
    RunCapped(limit, calls);
  }

  /** The bytes of the chunks accepted for an id since a transfer was last begun with it. */
  function Credited(limit: nat, calls: seq<Call>, id: string): int {
    if calls == [] then 0
    else
      var before, last := calls[..|calls| - 1], calls[|calls| - 1];
      match last
      case BeginCall(o) =>
        if ShortId(o.id) == id && Begun(limit, Run(limit, before), o).Ok? then 0 else Credited(limit, before, id)
      case PushCall(c) =>
        Credited(limit, before, id) + if c.id == id && Pushed(Run(limit, before), c).Ok? then BytesOf(c) else 0
      case _ => Credited(limit, before, id)
  }

  /** Main result: a stored transfer has counted exactly its accepted chunks, and they are within the cap. */
  lemma {:induction false} BytesConserved(limit: nat, calls: seq<Call>, id: string)
    requires id in Run(limit, calls)
    ensures Run(limit, calls)[id].bytes == Credited(limit, calls, id) <= MAX_BYTES
    decreases |calls|
  {
    RunCapped(limit, calls);
    var before := calls[..|calls| - 1];
    if id in Run(limit, before) {
      BytesConserved(limit, before, id);
    }
  }

  /**
   A transfer that has just begun takes its sender's first chunk exactly when its id
   was not cut to 128 characters.
   */
  lemma BegunThenPushed(limit: nat, m: Table, o: Opening, c: Chunk)
    requires Begun(limit, m, o).Ok? && c.id == o.id && c.sender == o.sender
    requires 0 <= c.number <= MAX_SEQ && BytesOf(c) <= MAX_BYTES && Capped(limit, m)
    ensures Pushed(Begun(limit, m, o).value, c).Ok? <==> |o.id| <= 128
  {}

  /** An id of 129 characters: a transfer begins with it, and no chunk finds it. */
  lemma LongIdLost(limit: nat, bytes: int)
    requires limit > 0
    ensures var id := seq(129, _ => 'a');
            var begun := Begun(limit, map[], Opening("peer", id, "", 0, 0));
            begun.Ok? && Pushed(begun.value, Chunk("peer", id, 0, "", Some(bytes), 0)) == Err(NotFound)
  {
    var id := seq(129, _ => 'a');
    assert |ShortId(id)| == 128 && GoodId(ShortId(id));
  }

  // ---------------------------------------------------------------- what calls and answers tell of one id

  /** A transfer as its calls tell it: how it began, what was taken for it, and when that was last. */
  datatype Story = Story(opening: Opening, last: int, numbers: set<int>, bytes: int)

  /** After more than ten minutes without anything a story is over, when transfers are looked through. */
  function Idle(s: Option<Story>, now: int): Option<Story> {
    if s.Some? && now - s.value.last > 10 * 60 * 1000 then None else s
  }

  /** One call that was taken, entered in the story of `id`. */
  function Told(s: Option<Story>, id: string, c: Call): Option<Story> {
    match c
    case BeginCall(o) =>
      if (if |o.id| > 128 then o.id[..128] else o.id) == id then Some(Story(o, o.now, {}, 0)) else Idle(s, o.now)
    case PushCall(k) =>
      if k.id != id || s.None? then s
      else
        var more := match k.bytes { case Some(n) => n case None => |k.ciphertext| * 3 / 4 };
        Some(s.value.(last := k.now, numbers := s.value.numbers + {k.number}, bytes := s.value.bytes + more))
    case EndCall(_, i, now) => if i == id && s.Some? then Some(s.value.(last := now)) else s
    case CancelCall(i) => if i == id then None else s
    case DropCall(sender) => if s.Some? && s.value.opening.sender == sender then None else s
    case RoomCall(now) => Idle(s, now)
  }

  /** The call is taken: it is not one that is answered with a reason. */
  predicate IsTaken(limit: nat, m: Table, c: Call) {
    match c
    case BeginCall(o) => Begun(limit, m, o).Ok?
    case PushCall(k) => Pushed(m, k).Ok?
    case EndCall(sender, id, now) => Ended(m, sender, id, now).Ok?
    case _ => true
  }

  function StoryOf(limit: nat, calls: seq<Call>, id: string): Option<Story> {
    if calls == [] then None
    else
      var before, last := calls[..|calls| - 1], calls[|calls| - 1];
      var s := StoryOf(limit, before, id);
      if IsTaken(limit, Run(limit, before), last) then Told(s, id, last) else s
  }

  /** The transfer that a story makes. */
  function Made(s: Story): Transfer {
    var o := s.opening;
    Transfer(o.sender, o.address, o.size, o.now, s.last, s.numbers, s.bytes, false)
  }

  predicate Agrees(m: Table, s: Option<Story>, id: string) {
    (id in m <==> s.Some?) && (id in m ==> m[id] == Made(s.value))
  }

  lemma StepAgrees(limit: nat, m: Table, s: Option<Story>, id: string, c: Call)
    requires Agrees(m, s, id)
    ensures Agrees(Step(limit, m, c), if IsTaken(limit, m, c) then Told(s, id, c) else s, id)
  {}

  /**
   Main result: over any run what is stored under an id is just what the calls taken
   for it tell, with their sizes and times.
   */
  lemma {:induction false} StoryAgrees(limit: nat, calls: seq<Call>, id: string)
    ensures Agrees(Run(limit, calls), StoryOf(limit, calls, id), id)
    decreases |calls|
  {
    if calls != [] {
      var before, last := calls[..|calls| - 1], calls[|calls| - 1];
      StoryAgrees(limit, before, id);
      StepAgrees(limit, Run(limit, before), StoryOf(limit, before, id), id, last);
    }
  }

  /** Main result: over any run every chunk, and every end, is taken or refused as the story of its id says. */
  lemma ChunkAnswer(limit: nat, calls: seq<Call>, c: Chunk, now: int)
    ensures var s := StoryOf(limit, calls, c.id);
            var m := Run(limit, calls);
            var bytes := match c.bytes { case Some(n) => n case None => |c.ciphertext| * 3 / 4 };
            && Pushed(m, c) ==
               (if s.None? then Err(NotFound)
                else if s.value.opening.sender != c.sender then Err(WrongSender)
                else if !(0 <= c.number <= 1_000_000) then Err(BadSeq)
                else if s.value.bytes + bytes > 10 * 1024 * 1024 * 1024 then Err(TooLarge)
                else Ok(Step(limit, m, PushCall(c))))
            && Ended(m, c.sender, c.id, now) ==
               (if s.None? then Err(NotFound)
                else if s.value.opening.sender != c.sender then Err(WrongSender)
                else Ok(Step(limit, m, EndCall(c.sender, c.id, now))))
  {
    StoryAgrees(limit, calls, c.id);
  }

  /** What can be wrong with an opening, in the order in which it is looked at. */
  predicate Objection(limit: nat, m: Table, o: Opening, k: nat) {
    match k
    case 0 => !GoodId(ShortId(o.id))
    case 1 => ShortId(o.id) in m
    case 2 => |m| >= 64
    case 3 => |OfSender(m, o.sender)| >= 4
    case 4 => o.size > 10 * 1024 * 1024 * 1024
    case 5 => o.address != "" && |OfAddress(m, o.address)| >= limit
    case _ => false
  }

  const OBJECTIONS := [InvalidId, Duplicate, ServerFull, PerPeerCap, TooLarge, PerAddressCap]

  /** Main result: a transfer is refused for the first objection there is, and begins exactly when there is none. */
  lemma FirstObjection(limit: nat, m: Table, o: Opening, k: nat)
    requires k < |OBJECTIONS|
    ensures Begun(limit, m, o) == Err(OBJECTIONS[k]) <==>
            Objection(limit, m, o, k) && forall j: nat | j < k :: !Objection(limit, m, o, j)
    ensures Begun(limit, m, o).Ok? <==> forall j: nat :: !Objection(limit, m, o, j)
  {
    assert !(Objection(limit, m, o, 0) || Objection(limit, m, o, 1) || Objection(limit, m, o, 2)
             || Objection(limit, m, o, 3) || Objection(limit, m, o, 4) || Objection(limit, m, o, 5)) <==>
           (forall j: nat :: !Objection(limit, m, o, j));
  }

  /** A chunk without a size counts as many bytes as its base64url text holds. */
  lemma BytesCounted(bytes: seq<Base64Url.Byte>, c: Chunk)
    requires c.ciphertext == Base64Url.Encode(bytes) && c.bytes == None
    ensures BytesOf(c) == |bytes|
  {
    var s := c.ciphertext;
    Base64Url.DecodeEncode(bytes);
    Base64Url.CanonicalIs(s, |bytes|);
    assert |s| == (|bytes| * 4 + 2) / 3;
  }

  /** The limit per address is the set one, when that is from 1 to 64, and otherwise 16. */
  lemma PerAddressIs(n: int)
    ensures PerAddress(Some(n)) == if n < 1 || n > 64 then 16 else n
    ensures PerAddress(None) == 16
  {}

  /** An id that transfers can begin with has 4 to 128 base64url digits, of which 128 are looked at. */
  lemma GoodIdIs(id: string)
    ensures GoodId(ShortId(id)) <==>
            !(|id| <= 3) && forall i | 0 <= i < |id| && i < 128 :: IsBase64Url(id[i])
  {}
}
