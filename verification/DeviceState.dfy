/**
 The bounded maps of per-device records (server/device-state.ts). Main result:
 what a device reads back is what a history without any bound holds for it,
 cut to the records that are not expired and then to the newest 5,000.
 */
module DeviceState {

  import opened Text
  import opened OrderedMap

  const MAX_SETTINGS_BYTES := 16 * 1024
  const MAX_DEVICE_RECORDS := 5_000

  datatype Record<T> = Record(updatedAt: int, payload: T)

  type Records<T> = Table<string, Record<T>>

  /** The test for a record that is not past the cutoff. */
  function Live<T>(cutoff: int): Entry<string, Record<T>> -> bool {
    (e: Entry<string, Record<T>>) => e.value.updatedAt >= cutoff
  }

  /** The loop of `boundedSet`: the first record goes while it is expired or there are too many. */
  function Shortened<T>(t: Records<T>, cutoff: int): Records<T> {
    if t == [] || (|t| <= MAX_DEVICE_RECORDS && Live(cutoff)(t[0])) then t else Shortened(t[1..], cutoff)
  }

  function Bounded<T>(t: Records<T>, key: string, value: Record<T>, cutoff: int): Records<T> {
    Shortened(Put(Delete(t, key), key, value), cutoff)
  }

  datatype Reading<T> = Reading(records: Records<T>, value: Option<Record<T>>)

  function Fresh<T>(t: Records<T>, key: string, cutoff: int): Reading<T> {
    match Get(t, key)
    case None => Reading(t, None)
    case Some(v) => if v.updatedAt < cutoff then Reading(Delete(t, key), None) else Reading(t, Some(v))
  }

  class Store<T> {
    var records: Table<string, Record<T>>

    constructor ()
      ensures records == []
    {
      records := [];
    }

    method BoundedSet(key: string, value: Record<T>, cutoff: int)
      modifies this
      ensures records == Bounded(old(records), key, value, cutoff)
    {
      records := Delete(records, key);
      records := Put(records, key, value);
      while records != []
        invariant Shortened(records, cutoff) == Bounded(old(records), key, value, cutoff)
        decreases |records|
      {
        var head := records[0];
        if |records| <= MAX_DEVICE_RECORDS && head.value.updatedAt >= cutoff {
          break;
        }
        records := Delete(records, head.key);
      }
    }

    method ReadFresh(key: string, cutoff: int) returns (value: Option<Record<T>>)
      modifies this
      ensures Reading(records, value) == Fresh(old(records), key, cutoff)
    {
      value := Get(records, key);
      if value.Some? && value.value.updatedAt < cutoff {
        records := Delete(records, key);
        value := None;
      }
    }
  }

  datatype Refusal = NotJson | TooLarge

  /** Stores a device's settings: their text, if there is one and it is not too long. */
  method PutDeviceSettings(s: Store<string>, byteLength: string -> nat, life: int, deviceId: string,
                           text: Option<string>, now: int)
    returns (reply: Result<bool, Refusal>)
    modifies s
    ensures match text {
              case None => reply == Err(NotJson) && s.records == old(s.records)
              case Some(payload) =>
                if byteLength(payload) > MAX_SETTINGS_BYTES then reply == Err(TooLarge) && s.records == old(s.records)
                else
                  && reply == Ok(true)
                  && s.records == Bounded(old(s.records), deviceId, Record(now, payload), now - life)
            }
  {
    if text == None {
      return Err(NotJson);
    }
    if byteLength(text.value) > MAX_SETTINGS_BYTES {
      return Err(TooLarge);
    }
    s.BoundedSet(deviceId, Record(now, text.value), now - life);
    return Ok(true);
  }

  method PutConsent(s: Store<bool>, life: int, deviceId: string, consent: bool, now: int) returns (record: Record<bool>)
    modifies s
    ensures record == Record(now, consent) && s.records == Bounded(old(s.records), deviceId, record, now - life)
  {
    record := Record(now, consent);
    s.BoundedSet(deviceId, record, now - life);
  }

  // ---------------------------------------------------------------- ordered tables

  predicate Ordered<T>(t: Records<T>) {
    forall i, j | 0 <= i < j < |t| :: t[i].value.updatedAt <= t[j].value.updatedAt
  }

  predicate NoneAfter<T>(t: Records<T>, now: int) { forall i | 0 <= i < |t| :: t[i].value.updatedAt <= now }

  /** The last `n` entries. */
  function Last<T>(n: nat, t: seq<T>): (r: seq<T>)
    ensures |r| <= n
  {
    if |t| <= n then t else t[|t| - n..]
  }

  lemma LastAppend<T>(n: nat, a: seq<T>, b: seq<T>)
    requires |b| >= n
    ensures Last(n, a + b) == Last(n, b)
  {}

  lemma {:induction false} KeepNone<T>(t: Records<T>, cutoff: int)
    requires forall i | 0 <= i < |t| :: !Live(cutoff)(t[i])
    ensures Keep(t, Live(cutoff)) == []
  {
    if t != [] {
      KeepNone(t[1..], cutoff);
    }
  }

  /** On an ordered table the loop leaves the newest 5,000 of what is not expired. */
  lemma {:induction false} ShortenedIs<T>(t: Records<T>, cutoff: int)
    requires Ordered(t)
    ensures Shortened(t, cutoff) == Last(MAX_DEVICE_RECORDS, Keep(t, Live(cutoff)))
  {
    if t != [] {
      if Live(cutoff)(t[0]) {
        KeepAll(t, Live(cutoff));
      }
      if |t| > MAX_DEVICE_RECORDS || !Live(cutoff)(t[0]) {
        ShortenedIs(t[1..], cutoff);
        if Live(cutoff)(t[0]) {
          KeepAll(t[1..], Live(cutoff));
        }
      }
    }
  }

  lemma LiveLast<T>(n: nat, t: Records<T>, cutoff: int)
    requires Ordered(t)
    ensures Keep(Last(n, t), Live(cutoff)) == Last(n, Keep(t, Live(cutoff)))
  {
    if |t| <= n {
      KeptAre(t, Live(cutoff));
    } else {
      var a, b := t[..|t| - n], t[|t| - n..];
      assert t == a + b;
      KeepAppend(a, b, Live(cutoff));
      if forall i | 0 <= i < |a| :: !Live(cutoff)(a[i]) {
        KeepNone(a, cutoff);
        KeptAre(b, Live(cutoff));
      } else {
        KeepAll(b, Live(cutoff));
        LastAppend(n, Keep(a, Live(cutoff)), b);
      }
    }
  }

  lemma {:induction false} LiveDelete<T>(t: Records<T>, key: string, cutoff: int)
    requires Distinct(t)
    ensures Keep(Delete(t, key), Live(cutoff)) == Delete(Keep(t, Live(cutoff)), key)
  {
    if t != [] {
      var rest := Keep(t[1..], Live(cutoff));
      FirstAlone(t);
      KeepFirst(t, Live(cutoff));
      FirstOf(t[0], rest, key);
      if t[0].key == key {
        KeepHasNot(t[1..], key, Live(cutoff));
        DeleteNone(rest, key);
      } else {
        LiveDelete(t[1..], key, cutoff);
        KeepFirst([t[0]] + Delete(t[1..], key), Live(cutoff));
        assert ([t[0]] + Delete(t[1..], key))[1..] == Delete(t[1..], key);
      }
    }
  }

  lemma {:induction false} LiveLive<T>(t: Records<T>, before: int, after: int)
    requires before <= after
    ensures Keep(Keep(t, Live(before)), Live(after)) == Keep(t, Live(after))
  {
    if t != [] {
      LiveLive(t[1..], before, after);
      KeepAppend(if Live(before)(t[0]) then [t[0]] else [], Keep(t[1..], Live(before)), Live(after));
    }
  }

  lemma {:induction false} DeleteAppend<T>(a: Records<T>, b: Records<T>, key: string)
    ensures Delete(a + b, key) == if Has(a, key) then Delete(a, key) + b else a + Delete(b, key)
  {
    if a == [] {
      assert a + b == b && a + Delete(b, key) == Delete(b, key);
    } else {
      assert (a + b)[1..] == a[1..] + b;
      if a[0].key != key {
        DeleteAppend(a[1..], b, key);
        assert Get(a, key) == Get(a[1..], key);
      } else {
        assert Has(a, key);
      }
    }
  }

  lemma {:induction false} DeleteSize<T>(t: Records<T>, key: string)
    ensures |Delete(t, key)| >= |t| - 1
  {
    if t != [] {
      DeleteSize(t[1..], key);
    }
  }

  /** A write to the newest `n` is the newest `n` after a write to all. */
  lemma LastWrite<T>(n: nat, t: Records<T>, e: Entry<string, Record<T>>)
    requires n > 0 && Distinct(t)
    ensures Last(n, Delete(Last(n, t), e.key) + [e]) == Last(n, Delete(t, e.key) + [e])
  {
    if |t| > n {
      var a, b := t[..|t| - n], t[|t| - n..];
      assert t == a + b;
      DeleteAppend(a, b, e.key);
      if Has(a, e.key) {
        forall i | 0 <= i < |b| ensures b[i].key != e.key {
          var j :| 0 <= j < |a| && a[j].key == e.key;
          assert t[j].key == e.key && b[i] == t[i + |a|];
        }
        DeleteNone(b, e.key);
        assert Delete(a, e.key) + b + [e] == Delete(a, e.key) + (b + [e]);
        LastAppend(n, Delete(a, e.key), b + [e]);
      } else {
        DeleteSize(b, e.key);
        assert a + Delete(b, e.key) + [e] == a + (Delete(b, e.key) + [e]);
        LastAppend(n, a, Delete(b, e.key) + [e]);
      }
    }
  }

  // ---------------------------------------------------------------- what a write leaves

  predicate Good<T>(t: Records<T>, now: int) { Distinct(t) && Ordered(t) && NoneAfter(t, now) }

  lemma WithoutOne<T>(t: Records<T>, u: Records<T>, i: nat, now: int)
    requires Good(t, now) && i < |t| && u == t[..i] + t[i + 1..]
    ensures Good(u, now) && !Has(u, t[i].key)
  {
    assert forall j | 0 <= j < |u| :: u[j] == t[if j < i then j else j + 1];
  }

  lemma DeleteShape<T>(t: Records<T>, key: string, now: int)
    requires Good(t, now)
    ensures Good(Delete(t, key), now) && !Has(Delete(t, key), key)
  {
    if Has(t, key) {
      var i :| 0 <= i < |t| && t[i].key == key;
      DeleteAt(t, i);
      WithoutOne(t, Delete(t, key), i, now);
    } else {
      DeleteNone(t, key);
    }
  }

  lemma OneAtEnd<T>(t: Records<T>, e: Entry<string, Record<T>>)
    requires Good(t, e.value.updatedAt) && !Has(t, e.key)
    ensures Good(t + [e], e.value.updatedAt)
  {}

  /** Moved to the end: the shape of a write before the loop. */
  lemma MovedToEnd<T>(t: Records<T>, key: string, value: Record<T>)
    requires Good(t, value.updatedAt)
    ensures Put(Delete(t, key), key, value) == Delete(t, key) + [Entry(key, value)]
    ensures Good(Delete(t, key) + [Entry(key, value)], value.updatedAt)
  {
    DeleteShape(t, key, value.updatedAt);
    PutNew(Delete(t, key), key, value);
    OneAtEnd(Delete(t, key), Entry(key, value));
  }

  /** The entry may stand before the table. */
  predicate Before<T>(e: Entry<string, Record<T>>, t: Records<T>) {
    forall i | 0 <= i < |t| :: t[i].key != e.key && e.value.updatedAt <= t[i].value.updatedAt
  }

  lemma GoodParts<T>(e: Entry<string, Record<T>>, rest: Records<T>, now: int)
    ensures Good([e] + rest, now) <==> Good(rest, now) && Before(e, rest) && e.value.updatedAt <= now
  {
    var t := [e] + rest;
    assert t[0] == e && t[1..] == rest;
    if Good(t, now) {
      GoodRest(t, now);
    }
    if Good(rest, now) && Before(e, rest) && e.value.updatedAt <= now {
      GoodWhole(t, now);
    }
  }

  lemma GoodRest<T>(t: Records<T>, now: int)
    requires t != [] && Good(t, now)
    ensures Good(t[1..], now) && Before(t[0], t[1..]) && t[0].value.updatedAt <= now
  {
    assert forall i | 0 <= i < |t[1..]| :: t[1..][i] == t[i + 1];
  }

  lemma GoodWhole<T>(t: Records<T>, now: int)
    requires t != [] && Good(t[1..], now) && Before(t[0], t[1..]) && t[0].value.updatedAt <= now
    ensures Good(t, now)
  {
    assert forall i | 1 <= i < |t| :: t[i] == t[1..][i - 1];
  }

  lemma KeptBefore<T>(e: Entry<string, Record<T>>, t: Records<T>, cutoff: int)
    requires Before(e, t)
    ensures Before(e, Keep(t, Live(cutoff)))
  {
    KeptAre(t, Live(cutoff));
  }

  lemma {:induction false} KeptGood<T>(t: Records<T>, cutoff: int, now: int)
    requires Good(t, now)
    ensures Good(Keep(t, Live(cutoff)), now)
    decreases |t|
  {
    if t != [] {
      assert t == [t[0]] + t[1..];
      GoodParts(t[0], t[1..], now);
      KeptGood(t[1..], cutoff, now);
      KeptBefore(t[0], t[1..], cutoff);
      GoodParts(t[0], Keep(t[1..], Live(cutoff)), now);
      KeepFirst(t, Live(cutoff));
    }
  }

  lemma LastGood<T>(n: nat, t: Records<T>, now: int)
    requires Good(t, now)
    ensures Good(Last(n, t), now)
  {}

  /**
   Main result: a write by a clock that has not gone back leaves the newest
   5,000 of the records that are not expired, the new one last; so nothing
   else is lost than expired records and the oldest ones.
   */
  lemma WriteLeaves<T>(t: Records<T>, key: string, value: Record<T>, cutoff: int)
    requires Good(t, value.updatedAt) && cutoff <= value.updatedAt
    ensures var after := Bounded(t, key, value, cutoff);
            var all := Delete(t, key) + [Entry(key, value)];
            && after == Last(MAX_DEVICE_RECORDS, Keep(all, Live(cutoff)))
            && Good(after, value.updatedAt) && 0 < |after| <= MAX_DEVICE_RECORDS
            && after[|after| - 1] == Entry(key, value)
            && (forall i | 0 <= i < |after| :: Live(cutoff)(after[i]))
  {
    var e := Entry(key, value);
    var all := Delete(t, key) + [e];
    MovedToEnd(t, key, value);
    ShortenedIs(all, cutoff);
    KeptGood(all, cutoff, value.updatedAt);
    EndsInWrite(Delete(t, key), e, cutoff);
    KeptAre(all, Live(cutoff));
    LastOf(Keep(all, Live(cutoff)), Keep(Delete(t, key), Live(cutoff)), e, cutoff);
  }

  /** The newest 5,000 of live records that end in `e`. */
  lemma LastOf<T>(live: Records<T>, rest: Records<T>, e: Entry<string, Record<T>>, cutoff: int)
    requires live == rest + [e] && Good(live, e.value.updatedAt) && forall i | 0 <= i < |live| :: Live(cutoff)(live[i])
    ensures var r := Last(MAX_DEVICE_RECORDS, live);
            && Good(r, e.value.updatedAt) && 0 < |r| && r[|r| - 1] == e
            && forall i | 0 <= i < |r| :: Live(cutoff)(r[i])
  {
    LastGood(MAX_DEVICE_RECORDS, live, e.value.updatedAt);
  }

  lemma EndsInWrite<T>(t: Records<T>, e: Entry<string, Record<T>>, cutoff: int)
    requires Live(cutoff)(e)
    ensures Keep(t + [e], Live(cutoff)) == Keep(t, Live(cutoff)) + [e]
  {
    KeepAppend(t, [e], Live(cutoff));
    assert Keep([e], Live(cutoff)) == [e];
  }

  // ---------------------------------------------------------------- any run

  datatype Op<T> = Write(key: string, payload: T, now: int) | Read(key: string, now: int) | Sweep(now: int)

  function Step<T>(life: int, t: Records<T>, op: Op<T>): Records<T> {
    match op
    case Write(key, payload, now) => Bounded(t, key, Record(now, payload), now - life)
    case Read(key, now) => Fresh(t, key, now - life).records
    case Sweep(now) => Keep(t, Live(now - life))
  }

  function Run<T>(life: int, ops: seq<Op<T>>): Records<T> {
    if ops == [] then [] else Step(life, Run(life, ops[..|ops| - 1]), ops[|ops| - 1])
  }

  function Recorded<T>(all: Records<T>, op: Op<T>): Records<T> {
    match op
    case Write(key, payload, now) => Delete(all, key) + [Entry(key, Record(now, payload))]
    case _ => all
  }

  /** The history: every device's last write, in the order of those writes, with nothing dropped. */
  function History<T>(ops: seq<Op<T>>): Records<T> {
    if ops == [] then [] else Recorded(History(ops[..|ops| - 1]), ops[|ops| - 1])
  }

  predicate Timely<T>(ops: seq<Op<T>>, now: int) {
    && (forall i | 0 <= i < |ops| :: ops[i].now <= now)
    && (forall i, j | 0 <= i < j < |ops| :: ops[i].now <= ops[j].now)
  }

  /** The table holds the newest 5,000 of the history's records that are not expired; others only past the cutoff. */
  ghost predicate Reflects<T>(t: Records<T>, all: Records<T>, cutoff: int) {
    |t| <= MAX_DEVICE_RECORDS && Keep(t, Live(cutoff)) == Last(MAX_DEVICE_RECORDS, Keep(all, Live(cutoff)))
  }

  /** Time goes on, and nothing else happens. */
  lemma Later<T>(t: Records<T>, all: Records<T>, before: int, after: int, now: int)
    requires Reflects(t, all, before) && Good(all, now) && before <= after
    ensures Reflects(t, all, after)
  {
    LiveLive(t, before, after);
    LiveLive(all, before, after);
    KeptGood(all, before, now);
    LiveLast(MAX_DEVICE_RECORDS, Keep(all, Live(before)), after);
  }

  lemma WriteReflects<T>(t: Records<T>, all: Records<T>, key: string, value: Record<T>, cutoff: int)
    requires Good(t, value.updatedAt) && Good(all, value.updatedAt) && cutoff <= value.updatedAt
    requires Reflects(t, all, cutoff)
    ensures Reflects(Bounded(t, key, value, cutoff), Delete(all, key) + [Entry(key, value)], cutoff)
  {
    var e := Entry(key, value);
    var after := Bounded(t, key, value, cutoff);
    WriteLeaves(t, key, value, cutoff);
    KeepAll(after, Live(cutoff));
    LiveOfWrite(t, e, cutoff);
    LiveOfWrite(all, e, cutoff);
    KeptGood(all, cutoff, value.updatedAt);
    LastWrite(MAX_DEVICE_RECORDS, Keep(all, Live(cutoff)), e);
  }

  lemma LiveOfWrite<T>(t: Records<T>, e: Entry<string, Record<T>>, cutoff: int)
    requires Distinct(t) && Live(cutoff)(e)
    ensures Keep(Delete(t, e.key) + [e], Live(cutoff)) == Delete(Keep(t, Live(cutoff)), e.key) + [e]
  {
    EndsInWrite(Delete(t, e.key), e, cutoff);
    LiveDelete(t, e.key, cutoff);
  }

  /** Reading a record past the cutoff removes only what is not live. */
  lemma ReadReflects<T>(t: Records<T>, all: Records<T>, key: string, cutoff: int, now: int)
    requires Good(t, now) && Reflects(t, all, cutoff)
    ensures Reflects(Fresh(t, key, cutoff).records, all, cutoff) && Good(Fresh(t, key, cutoff).records, now)
  {
    DeleteShape(t, key, now);
    LiveDelete(t, key, cutoff);
    GetKeep(t, Live(cutoff), key);
    if Has(t, key) && Get(t, key).value.updatedAt < cutoff {
      DeleteNone(Keep(t, Live(cutoff)), key);
      var i :| 0 <= i < |t| && t[i].key == key;
      DeleteAt(t, i);
    }
  }

  lemma SweepReflects<T>(t: Records<T>, all: Records<T>, cutoff: int)
    requires Reflects(t, all, cutoff)
    ensures Reflects(Keep(t, Live(cutoff)), all, cutoff)
  {
    LiveLive(t, cutoff, cutoff);
    KeptAre(t, Live(cutoff));
  }

  lemma StepReflects<T>(life: int, t: Records<T>, all: Records<T>, op: Op<T>)
    requires Good(t, op.now) && Good(all, op.now) && Reflects(t, all, op.now - life) && life >= 0
    ensures Good(Step(life, t, op), op.now) && Good(Recorded(all, op), op.now)
    ensures Reflects(Step(life, t, op), Recorded(all, op), op.now - life)
  {
    var cutoff := op.now - life;
    match op
    case Write(key, payload, now) =>
      WriteLeaves(t, key, Record(now, payload), cutoff);
      MovedToEnd(all, key, Record(now, payload));
      WriteReflects(t, all, key, Record(now, payload), cutoff);
    case Read(key, now) =>
      ReadReflects(t, all, key, cutoff, now);
    case Sweep(now) =>
      KeptGood(t, cutoff, now);
      SweepReflects(t, all, cutoff);
  }

  lemma {:induction false} RunReflects<T>(life: int, ops: seq<Op<T>>, now: int)
    requires Timely(ops, now) && life >= 0
    ensures Good(Run(life, ops), now) && Good(History(ops), now)
    ensures Reflects(Run(life, ops), History(ops), now - life)
    decreases |ops|
  {
    if ops != [] {
      var before, last := ops[..|ops| - 1], ops[|ops| - 1];
      RunReflects(life, before, last.now);
      StepReflects(life, Run(life, before), History(before), last);
      Later(Run(life, ops), History(ops), last.now - life, now - life, last.now);
    }
  }

  /**
   Main result: after any writes, reads and sweeps by a clock that does not go
   back, a device reads its last write exactly when that is not expired and
   among the newest 5,000 such last writes, and nothing otherwise.
   */
  lemma ReadsHistory<T>(life: int, ops: seq<Op<T>>, key: string, now: int)
    requires Timely(ops, now) && life >= 0
    ensures Fresh(Run(life, ops), key, now - life).value ==
            Get(Last(MAX_DEVICE_RECORDS, Keep(History(ops), Live(now - life))), key)
  {
    RunReflects(life, ops, now);
    GetKeep(Run(life, ops), Live(now - life), key);
  }
}
