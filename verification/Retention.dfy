/**
 The retention sweep (server/retention.ts) over the four tables and the event
 ring (server/events.ts:71-75), and the dry run that only counts.
 */
module Retention {

  import opened Text
  import opened OrderedMap

  /** How long each kind of record may stay, in milliseconds. */
  datatype Lives = Lives(settings: int, audit: int, push: int, consent: int, event: int)

  /** The environment's numbers of days; `None` when one is not set or is not a number. */
  datatype Days = Days(settings: Option<int>, audit: Option<int>, push: Option<int>, data: Option<int>,
                       event: Option<int>)

  const DAY_MS := 24 * 60 * 60 * 1000

  function DaysOr(given: Option<int>, other: int): int { if given.Some? && given.value > 0 then given.value else other }

  /** The lifetimes of a process: the consent ledger goes by DATA_RETENTION_DAYS. */
  function LivesOf(env: Days): Lives {
    Lives(DaysOr(env.settings, 30) * DAY_MS, DaysOr(env.audit, 60) * DAY_MS, DaysOr(env.push, 90) * DAY_MS,
          DaysOr(env.data, 30) * DAY_MS, DaysOr(env.event, 7) * DAY_MS)
  }

  /** Anything strictly before these times is expired. */
  datatype Cutoffs = Cutoffs(settings: int, audit: int, push: int, consent: int, event: int)

  function CutoffsAt(lives: Lives, now: int): Cutoffs {
    Cutoffs(now - lives.settings, now - lives.audit, now - lives.push, now - lives.consent, now - lives.event)
  }

  /** A record of any kind: its time and what else it holds. */
  datatype Stamped<T> = Stamped(at: int, body: T)

  type Records<T> = Table<string, Stamped<T>>

  type Logs<T> = Table<string, seq<Stamped<T>>>

  datatype Stores<T> = Stores(
    settings: Records<T>, audit: Logs<T>, push: Records<T>, consent: Records<T>, events: seq<Stamped<T>>)

  datatype Counts = Counts(settings: nat, audit: nat, push: nat, consent: nat, events: nat)

  predicate Good<T>(s: Stores<T>) {
    Distinct(s.settings) && Distinct(s.audit) && Distinct(s.push) && Distinct(s.consent)
  }

  // ---------------------------------------------------------------- counting

  /** `entries.filter((e) => e.at >= cutoff)` */
  function Recent<T>(s: seq<Stamped<T>>, cutoff: int): (r: seq<Stamped<T>>)
    ensures |r| <= |s|
  {
    if s == [] then [] else (if s[0].at >= cutoff then [s[0]] else []) + Recent(s[1..], cutoff)
  }

  function OldIn<T>(s: seq<Stamped<T>>, cutoff: int): nat {
    if s == [] then 0 else (if s[0].at < cutoff then 1 else 0) + OldIn(s[1..], cutoff)
  }

  function OldRecords<T>(t: Records<T>, cutoff: int): nat {
    if t == [] then 0 else (if t[0].value.at < cutoff then 1 else 0) + OldRecords(t[1..], cutoff)
  }

  function OldEntries<T>(t: Logs<T>, cutoff: int): nat {
    if t == [] then 0 else OldIn(t[0].value, cutoff) + OldEntries(t[1..], cutoff)
  }

  /** What `planRetention` reports. */
  function Planned<T>(s: Stores<T>, c: Cutoffs): Counts {
    Counts(OldRecords(s.settings, c.settings), OldEntries(s.audit, c.audit), OldRecords(s.push, c.push),
           OldRecords(s.consent, c.consent), OldIn(s.events, c.event))
  }

  // ---------------------------------------------------------------- sweeping

  function Live<T>(cutoff: int): Entry<string, Stamped<T>> -> bool {
    (e: Entry<string, Stamped<T>>) => e.value.at >= cutoff
  }

  /** Every log with its recent entries only; a log without any goes with its key. */
  function RecentLogs<T>(t: Logs<T>, cutoff: int): Logs<T> {
    if t == [] then []
    else
      var kept := Recent(t[0].value, cutoff);
      (if kept == [] then [] else [Entry(t[0].key, kept)]) + RecentLogs(t[1..], cutoff)
  }

  function Swept<T>(s: Stores<T>, c: Cutoffs): Stores<T> {
    Stores(Keep(s.settings, Live(c.settings)), RecentLogs(s.audit, c.audit), Keep(s.push, Live(c.push)),
           Keep(s.consent, Live(c.consent)), Recent(s.events, c.event))
  }

  function Entries<T>(t: Logs<T>): nat { if t == [] then 0 else |t[0].value| + Entries(t[1..]) }

  /** How many records there are of each kind. */
  function Sizes<T>(s: Stores<T>): Counts { Counts(|s.settings|, Entries(s.audit), |s.push|, |s.consent|, |s.events|) }

  // ---------------------------------------------------------------- the code

  method CountOld<T>(t: Records<T>, cutoff: int) returns (n: nat)
    ensures n == OldRecords(t, cutoff)
  {
    n := 0;
    for i := 0 to |t|
      invariant n + OldRecords(t[i..], cutoff) == OldRecords(t, cutoff)
    {
      assert t[i..][1..] == t[i + 1..];
      if t[i].value.at < cutoff {
        n := n + 1;
      }
    }
  }

  method CountOldIn<T>(s: seq<Stamped<T>>, cutoff: int) returns (n: nat)
    ensures n == OldIn(s, cutoff)
  {
    n := 0;
    for i := 0 to |s|
      invariant n + OldIn(s[i..], cutoff) == OldIn(s, cutoff)
    {
      assert s[i..][1..] == s[i + 1..];
      if s[i].at < cutoff {
        n := n + 1;
      }
    }
  }

  /** Counts what a sweep at `now` would remove, and changes nothing. */
  method PlanRetention<T>(lives: Lives, s: Stores<T>, now: int) returns (removed: Counts)
    ensures removed == Planned(s, CutoffsAt(lives, now))
  {
    var c := CutoffsAt(lives, now);
    var settings := CountOld(s.settings, c.settings);
    var audit := 0;
    for i := 0 to |s.audit|
      invariant audit + OldEntries(s.audit[i..], c.audit) == OldEntries(s.audit, c.audit)
    {
      assert s.audit[i..][1..] == s.audit[i + 1..];
      var n := CountOldIn(s.audit[i].value, c.audit);
      audit := audit + n;
    }
    var push := CountOld(s.push, c.push);
    var consent := CountOld(s.consent, c.consent);
    var events := CountOldIn(s.events, c.event);
    removed := Counts(settings, audit, push, consent, events);
  }

  /** The loop over a copy of a table that deletes what is too old from the table. */
  method DropOld<T>(t: Records<T>, cutoff: int) returns (kept: Records<T>, n: nat)
    requires Distinct(t)
    ensures kept == Keep(t, Live(cutoff)) && n == |t| - |kept|
  {
    kept, n := t, 0;
    assert t[..0] == [] && [] + t[0..] == t;
    for i := 0 to |t|
      invariant kept == Keep(t[..i], Live(cutoff)) + t[i..] && n == |t| - |kept|
    {
      KeepOneMore(t, i, cutoff);
      if t[i].value.at < cutoff {
        kept := Delete(kept, t[i].key);
        n := n + 1;
      }
    }
    assert t[..|t|] == t;
  }

  lemma KeepOneMore<T>(t: Records<T>, i: nat, cutoff: int)
    requires i < |t| && Distinct(t)
    ensures var before := Keep(t[..i], Live(cutoff)) + t[i..];
            Keep(t[..i + 1], Live(cutoff)) + t[i + 1..] ==
            (if t[i].value.at < cutoff then Delete(before, t[i].key) else before)
    ensures |Keep(t[..i + 1], Live(cutoff))| == |Keep(t[..i], Live(cutoff))| + if t[i].value.at < cutoff then 0 else 1
  {
    var head := Keep(t[..i], Live(cutoff));
    assert t[..i + 1] == t[..i] + [t[i]];
    KeepAppend(t[..i], [t[i]], Live(cutoff));
    assert t[i..] == [t[i]] + t[i + 1..];
    if t[i].value.at < cutoff {
      KeepHasNot(t[..i], t[i].key, Live(cutoff));
      DeleteAfter(head, t[i], t[i + 1..]);
      assert Keep([t[i]], Live(cutoff)) == [] && head + [] == head;
    } else {
      assert Keep([t[i]], Live(cutoff)) == [t[i]];
      Associative(head, [t[i]], t[i + 1..]);
    }
  }

  lemma {:induction false} DeleteAfter<K, V>(a: Table<K, V>, e: Entry<K, V>, b: Table<K, V>)
    requires !Has(a, e.key)
    ensures Delete(a + ([e] + b), e.key) == a + b
  {
    if a == [] {
      assert [] + ([e] + b) == [e] + b && [] + b == b;
      FirstOf(e, b, e.key);
    } else {
      assert a[0].key != e.key;
      forall i | 0 <= i < |a[1..]| ensures a[1..][i].key != e.key {
        assert a[1..][i] == a[i + 1];
      }
      DeleteAfter(a[1..], e, b);
      assert a + ([e] + b) == [a[0]] + (a[1..] + ([e] + b));
      FirstOf(a[0], a[1..] + ([e] + b), e.key);
      assert [a[0]] + (a[1..] + b) == a + b;
    }
  }

  /** One log of the sweep: it goes, or it is cut to its recent entries, or it stays. */
  function LogSwept<T>(t: Logs<T>, e: Entry<string, seq<Stamped<T>>>, recent: seq<Stamped<T>>): Logs<T> {
    if recent == [] then Delete(t, e.key) else if |recent| < |e.value| then Put(t, e.key, recent) else t
  }

  lemma LogStep<T>(t: Logs<T>, i: nat, cutoff: int)
    requires i < |t| && Distinct(t)
    ensures var recent := Recent(t[i].value, cutoff);
            var before, after := RecentLogs(t[..i], cutoff) + t[i..], RecentLogs(t[..i + 1], cutoff) + t[i + 1..];
            LogSwept(before, t[i], recent) == after && Entries(before) - |t[i].value| + |recent| == Entries(after)
  {
    var head, recent := RecentLogs(t[..i], cutoff), Recent(t[i].value, cutoff);
    LogsOneMore(t, i, cutoff);
    EntriesParts(head, t[i], t[i + 1..]);
    EntriesParts(head, Entry(t[i].key, recent), t[i + 1..]);
    if |recent| == |t[i].value| {
      RecentAll(t[i].value, cutoff);
    }
  }

  method SweepLog<T>(t: Logs<T>, e: Entry<string, seq<Stamped<T>>>, cutoff: int) returns (kept: Logs<T>, went: nat)
    ensures kept == LogSwept(t, e, Recent(e.value, cutoff)) && went == |e.value| - |Recent(e.value, cutoff)|
  {
    kept := t;
    var recent := Recent(e.value, cutoff);
    went := |e.value| - |recent|;
    if |recent| == 0 {
      kept := Delete(kept, e.key);
    } else if |recent| < |e.value| {
      kept := Put(kept, e.key, recent);
    }
  }

  /** The audit logs: each keeps its recent entries, in place, or goes when none is left. */
  method SweepLogs<T>(t: Logs<T>, cutoff: int) returns (kept: Logs<T>, n: nat)
    requires Distinct(t)
    ensures kept == RecentLogs(t, cutoff) && n == Entries(t) - Entries(kept)
  {
    kept, n := t, 0;
    assert t[..0] == [] && [] + t[0..] == t;
    for i := 0 to |t|
      invariant kept == RecentLogs(t[..i], cutoff) + t[i..] && n == Entries(t) - Entries(kept)
    {
      LogStep(t, i, cutoff);
      var went;
      kept, went := SweepLog(kept, t[i], cutoff);
      n := n + went;
    }
    assert t[..|t|] == t;
  }

  lemma {:induction false} RecentAll<T>(s: seq<Stamped<T>>, cutoff: int)
    requires |Recent(s, cutoff)| == |s|
    ensures Recent(s, cutoff) == s
  {
    if s != [] {
      RecentAll(s[1..], cutoff);
    }
  }

  lemma {:induction false} EntriesAppend<T>(a: Logs<T>, b: Logs<T>)
    ensures Entries(a + b) == Entries(a) + Entries(b)
  {
    if a == [] {
      assert a + b == b;
    } else {
      assert (a + b)[1..] == a[1..] + b;
      EntriesAppend(a[1..], b);
    }
  }

  lemma EntriesParts<T>(a: Logs<T>, e: Entry<string, seq<Stamped<T>>>, b: Logs<T>)
    ensures Entries(a + ([e] + b)) == Entries(a) + |e.value| + Entries(b)
    ensures Entries(a + b) == Entries(a) + Entries(b)
  {
    EntriesAppend(a, b);
    EntriesAppend(a, [e] + b);
    EntriesAppend([e], b);
  }

  lemma {:induction false} LogsAppend<T>(a: Logs<T>, b: Logs<T>, cutoff: int)
    ensures RecentLogs(a + b, cutoff) == RecentLogs(a, cutoff) + RecentLogs(b, cutoff)
  {
    if a == [] {
      assert a + b == b && [] + RecentLogs(b, cutoff) == RecentLogs(b, cutoff);
    } else {
      assert (a + b)[1..] == a[1..] + b;
      LogsAppend(a[1..], b, cutoff);
      var kept := Recent(a[0].value, cutoff);
      var first := if kept == [] then [] else [Entry(a[0].key, kept)];
      Associative(first, RecentLogs(a[1..], cutoff), RecentLogs(b, cutoff));
    }
  }

  lemma {:induction false} LogsHaveNot<T>(t: Logs<T>, k: string, cutoff: int)
    requires !Has(t, k)
    ensures !Has(RecentLogs(t, cutoff), k)
  {
    if t != [] {
      assert t[0].key != k;
      forall i | 0 <= i < |t[1..]| ensures t[1..][i].key != k {
        assert t[1..][i] == t[i + 1];
      }
      LogsHaveNot(t[1..], k, cutoff);
    }
  }

  lemma {:induction false} LogsDistinct<T>(t: Logs<T>, cutoff: int)
    requires Distinct(t)
    ensures Distinct(RecentLogs(t, cutoff))
  {
    if t != [] {
      FirstAlone(t);
      LogsDistinct(t[1..], cutoff);
      LogsHaveNot(t[1..], t[0].key, cutoff);
    }
  }

  lemma SweptGood<T>(s: Stores<T>, c: Cutoffs)
    requires Good(s)
    ensures Good(Swept(s, c))
  {
    KeepDistinct(s.settings, Live(c.settings));
    LogsDistinct(s.audit, c.audit);
    KeepDistinct(s.push, Live(c.push));
    KeepDistinct(s.consent, Live(c.consent));
  }

  lemma {:induction false} PutAfter<K, V>(a: Table<K, V>, e: Entry<K, V>, b: Table<K, V>, v: V)
    requires !Has(a, e.key)
    ensures Put(a + ([e] + b), e.key, v) == a + ([Entry(e.key, v)] + b)
  {
    if a == [] {
      assert [] + ([e] + b) == [e] + b && ([e] + b)[1..] == b;
    } else {
      assert a[0].key != e.key;
      forall i | 0 <= i < |a[1..]| ensures a[1..][i].key != e.key {
        assert a[1..][i] == a[i + 1];
      }
      PutAfter(a[1..], e, b, v);
      assert (a + ([e] + b))[1..] == a[1..] + ([e] + b);
      assert [a[0]] + (a[1..] + ([Entry(e.key, v)] + b)) == a + ([Entry(e.key, v)] + b);
    }
  }

  lemma LogsOneMore<T>(t: Logs<T>, i: nat, cutoff: int)
    requires i < |t| && Distinct(t)
    ensures var head, recent := RecentLogs(t[..i], cutoff), Recent(t[i].value, cutoff);
            && head + t[i..] == head + ([t[i]] + t[i + 1..])
            && RecentLogs(t[..i + 1], cutoff) + t[i + 1..] ==
               (if recent == [] then head + t[i + 1..] else head + ([Entry(t[i].key, recent)] + t[i + 1..]))
            && Delete(head + t[i..], t[i].key) == head + t[i + 1..]
            && Put(head + t[i..], t[i].key, recent) == head + ([Entry(t[i].key, recent)] + t[i + 1..])
  {
    var head, recent := RecentLogs(t[..i], cutoff), Recent(t[i].value, cutoff);
    assert t[..i + 1] == t[..i] + [t[i]] && t[i..] == [t[i]] + t[i + 1..];
    LogsAppend(t[..i], [t[i]], cutoff);
    assert RecentLogs([t[i]], cutoff) == if recent == [] then [] else [Entry(t[i].key, recent)];
    LogsHaveNot(t[..i], t[i].key, cutoff);
    DeleteAfter(head, t[i], t[i + 1..]);
    PutAfter(head, t[i], t[i + 1..], recent);
    Associative(head, [Entry(t[i].key, recent)], t[i + 1..]);
    assert head + [] == head;
  }

  /** The event ring. */
  class EventStore<T> {
    var ring: seq<Stamped<T>>

    constructor (ring: seq<Stamped<T>>)
      ensures this.ring == ring
    {
      this.ring := ring;
    }

    method PruneOlderThan(cutoff: int) returns (n: nat)
      modifies this
      ensures ring == Recent(old(ring), cutoff) && n == |old(ring)| - |ring|
    {
      var before := |ring|;
      ring := Recent(ring, cutoff);
      n := before - |ring|;
    }
  }

  class LiveStores<T> {
    var settings: Table<string, Stamped<T>>
    var audit: Table<string, seq<Stamped<T>>>
    var push: Table<string, Stamped<T>>
    var consent: Table<string, Stamped<T>>
    const events: EventStore<T>

    constructor (s: Stores<T>)
      ensures Now() == s && fresh(events)
    {
      settings, audit, push, consent := s.settings, s.audit, s.push, s.consent;
      events := new EventStore(s.events);
    }

    function Now(): Stores<T>
      reads this, events
    {
      Stores(settings, audit, push, consent, events.ring)
    }

    /** Deletes everything before its kind's cutoff and reports how much of each went. */
    method SweepRetention(lives: Lives, now: int) returns (removed: Counts)
      requires Good(Now())
      modifies this, events
      ensures Good(Now())
      ensures Now() == Swept(old(Now()), CutoffsAt(lives, now))
      ensures removed == Minus(Sizes(old(Now())), Sizes(Now()))
    {
      var c := CutoffsAt(lives, now);
      SweptGood(Now(), c);
      var n1, n2, n3, n4;
      settings, n1 := DropOld(settings, c.settings);
      audit, n2 := SweepLogs(audit, c.audit);
      push, n3 := DropOld(push, c.push);
      consent, n4 := DropOld(consent, c.consent);
      var n5 := events.PruneOlderThan(c.event);
      removed := Counts(n1, n2, n3, n4, n5);
    }
  }

  function Minus(a: Counts, b: Counts): Counts {
    Counts(Lost(a.settings, b.settings), Lost(a.audit, b.audit), Lost(a.push, b.push),
           Lost(a.consent, b.consent), Lost(a.events, b.events))
  }

  function Lost(a: nat, b: nat): nat { if b <= a then a - b else 0 }

  // ---------------------------------------------------------------- which lifetime is whose

  lemma {:induction false} KeepIs<T>(t: Records<T>, cutoff: int)
    ensures forall e :: e in Keep(t, Live(cutoff)) <==> e in t && e.value.at >= cutoff
  {
    if t != [] {
      KeepIs(t[1..], cutoff);
      assert t == [t[0]] + t[1..];
    }
  }

  lemma {:induction false} RecentIs<T>(s: seq<Stamped<T>>, cutoff: int)
    ensures forall e :: e in Recent(s, cutoff) <==> e in s && e.at >= cutoff
  {
    if s != [] {
      RecentIs(s[1..], cutoff);
      assert s == [s[0]] + s[1..];
    }
  }

  /** The log of a device has this entry. */
  predicate Logged<T(==)>(t: Logs<T>, device: string, e: Stamped<T>) {
    exists i | 0 <= i < |t| :: t[i].key == device && e in t[i].value
  }

  lemma LoggedMore<T>(x: Entry<string, seq<Stamped<T>>>, rest: Logs<T>, device: string, e: Stamped<T>)
    ensures Logged([x] + rest, device, e) <==> (x.key == device && e in x.value) || Logged(rest, device, e)
  {
    var t := [x] + rest;
    assert t[0] == x;
    if i :| 0 <= i < |rest| && rest[i].key == device && e in rest[i].value {
      assert t[i + 1] == rest[i];
    }
    if i :| 0 <= i < |t| && t[i].key == device && e in t[i].value {
      assert i > 0 ==> t[i] == rest[i - 1];
    }
  }

  lemma {:induction false} LogsIs<T>(t: Logs<T>, cutoff: int, device: string, e: Stamped<T>)
    ensures Logged(RecentLogs(t, cutoff), device, e) <==> Logged(t, device, e) && e.at >= cutoff
  {
    if t != [] {
      var kept, rest := Recent(t[0].value, cutoff), RecentLogs(t[1..], cutoff);
      LogsIs(t[1..], cutoff, device, e);
      RecentIs(t[0].value, cutoff);
      LoggedMore(t[0], t[1..], device, e);
      LoggedMore(Entry(t[0].key, kept), rest, device, e);
      assert t == [t[0]] + t[1..] && [] + rest == rest;
    }
  }

  /**
   Main result: a sweep leaves of each kind just the records that are no older
   than that kind may become.
   */
  lemma LeftByAge<T>(lives: Lives, s: Stores<T>, now: int, device: string, entry: Stamped<T>)
    ensures var after := Swept(s, CutoffsAt(lives, now));
            && (forall e :: e in after.settings <==> e in s.settings && now - e.value.at <= lives.settings)
            && (Logged(after.audit, device, entry) <==> Logged(s.audit, device, entry) && now - entry.at <= lives.audit)
            && (forall e :: e in after.push <==> e in s.push && now - e.value.at <= lives.push)
            && (forall e :: e in after.consent <==> e in s.consent && now - e.value.at <= lives.consent)
            && (forall e :: e in after.events <==> e in s.events && now - e.at <= lives.event)
  {
    var c := CutoffsAt(lives, now);
    KeepIs(s.settings, c.settings);
    LogsIs(s.audit, c.audit, device, entry);
    KeepIs(s.push, c.push);
    KeepIs(s.consent, c.consent);
    RecentIs(s.events, c.event);
  }

  /** This many days are set, or none are and this is what stands for them. */
  predicate IsSet(given: Option<int>, days: int, other: int) {
    if given.Some? && given.value >= 1 then days == given.value else days == other
  }

  /**
   Without settings of the environment: 30 days, 60, 90, 30 and 7; a setting counts
   in days, when it is above zero.
   */
  lemma LeftByDays<T>(s: Stores<T>, env: Days, now: int, days: int, device: string, entry: Stamped<T>)
    ensures var after := Swept(s, CutoffsAt(LivesOf(env), now));
            && (IsSet(env.settings, days, 30) ==>
                forall e :: e in after.settings <==> e in s.settings && now - e.value.at <= days * 86_400_000)
            && (IsSet(env.audit, days, 60) ==>
                (Logged(after.audit, device, entry) <==>
                 Logged(s.audit, device, entry) && now - entry.at <= days * 86_400_000))
            && (IsSet(env.push, days, 90) ==>
                forall e :: e in after.push <==> e in s.push && now - e.value.at <= days * 86_400_000)
            && (IsSet(env.data, days, 30) ==>
                forall e :: e in after.consent <==> e in s.consent && now - e.value.at <= days * 86_400_000)
            && (IsSet(env.event, days, 7) ==>
                forall e :: e in after.events <==> e in s.events && now - e.at <= days * 86_400_000)
  {
    LeftByAge(LivesOf(env), s, now, device, entry);
  }

  // ---------------------------------------------------------------- plan and sweep agree

  lemma {:induction false} OldAndRecent<T>(s: seq<Stamped<T>>, cutoff: int)
    ensures OldIn(s, cutoff) + |Recent(s, cutoff)| == |s|
  {
    if s != [] {
      OldAndRecent(s[1..], cutoff);
    }
  }

  lemma {:induction false} OldAndKept<T>(t: Records<T>, cutoff: int)
    ensures OldRecords(t, cutoff) + |Keep(t, Live(cutoff))| == |t|
  {
    if t != [] {
      OldAndKept(t[1..], cutoff);
    }
  }

  lemma {:induction false} OldAndLogs<T>(t: Logs<T>, cutoff: int)
    ensures OldEntries(t, cutoff) + Entries(RecentLogs(t, cutoff)) == Entries(t)
  {
    if t != [] {
      OldAndLogs(t[1..], cutoff);
      OldAndRecent(t[0].value, cutoff);
      var kept := Recent(t[0].value, cutoff);
      EntriesAppend(if kept == [] then [] else [Entry(t[0].key, kept)], RecentLogs(t[1..], cutoff));
    }
  }

  /** Main result: what the dry run counts is what the sweep removes. */
  lemma PlanIsSweep<T>(lives: Lives, s: Stores<T>, now: int)
    ensures var c := CutoffsAt(lives, now); Planned(s, c) == Minus(Sizes(s), Sizes(Swept(s, c)))
  {
    var c := CutoffsAt(lives, now);
    OldAndKept(s.settings, c.settings);
    OldAndLogs(s.audit, c.audit);
    OldAndKept(s.push, c.push);
    OldAndKept(s.consent, c.consent);
    OldAndRecent(s.events, c.event);
  }

  // ---------------------------------------------------------------- the survivors

  /** Strictly rising positions, which are those that pass a test and no others. */
  predicate Positions(at: seq<nat>, n: nat, p: nat -> bool) {
    && (forall j | 0 <= j < |at| :: at[j] < n && p(at[j]))
    && (forall j, k | 0 <= j < k < |at| :: at[j] < at[k])
    && (forall i: nat | i < n :: p(i) ==> i in at)
  }

  /** One more place to look at, which passes or not. */
  lemma PositionsMore(at: seq<nat>, n: nat, p: nat -> bool, q: nat -> bool)
    requires Positions(at, n, p) && forall i: nat | i < n :: p(i) == q(i)
    ensures Positions(at + if q(n) then [n] else [], n + 1, q)
  {
    var more := at + if q(n) then [n] else [];
    forall i: nat | i < n + 1 && q(i) ensures i in more {
      if i < n {
        assert i in at;
      } else {
        assert more[|at|] == i;
      }
    }
  }

  function RecentPlace<T>(s: seq<Stamped<T>>, cutoff: int): nat -> bool { (i: nat) => i < |s| && s[i].at >= cutoff }

  /** Main result: the recent entries are just those at or after the cutoff, in their old order. */
  lemma {:induction false} RecentAt<T>(s: seq<Stamped<T>>, cutoff: int) returns (at: seq<nat>)
    ensures Positions(at, |s|, RecentPlace(s, cutoff))
    ensures |at| == |Recent(s, cutoff)| && forall j | 0 <= j < |at| :: Recent(s, cutoff)[j] == s[at[j]]
    decreases |s|
  {
    if s == [] {
      return [];
    }
    var last := |s| - 1;
    var front := RecentAt(s[..last], cutoff);
    assert s == s[..last] + [s[last]];
    RecentAppend(s[..last], [s[last]], cutoff);
    PositionsMore(front, last, RecentPlace(s[..last], cutoff), RecentPlace(s, cutoff));
    at := front + if s[last].at >= cutoff then [last] else [];
  }

  function LivePlace<T>(t: Records<T>, cutoff: int): nat -> bool { (i: nat) => i < |t| && t[i].value.at >= cutoff }

  /** Main result: the surviving records are just those at or after the cutoff, in their old order. */
  lemma {:induction false} KeptAt<T>(t: Records<T>, cutoff: int) returns (at: seq<nat>)
    ensures Positions(at, |t|, LivePlace(t, cutoff))
    ensures |at| == |Keep(t, Live(cutoff))| && forall j | 0 <= j < |at| :: Keep(t, Live(cutoff))[j] == t[at[j]]
    decreases |t|
  {
    if t == [] {
      return [];
    }
    var last := |t| - 1;
    var front := KeptAt(t[..last], cutoff);
    assert t == t[..last] + [t[last]];
    KeepAppend(t[..last], [t[last]], Live(cutoff));
    PositionsMore(front, last, LivePlace(t[..last], cutoff), LivePlace(t, cutoff));
    at := front + if t[last].value.at >= cutoff then [last] else [];
  }

  function LogPlace<T>(t: Logs<T>, cutoff: int): nat -> bool { (i: nat) => i < |t| && Recent(t[i].value, cutoff) != [] }

  /** Main result: a log stays, in its old place, exactly when it has a recent entry, and holds just those. */
  lemma {:induction false} LogsAt<T>(t: Logs<T>, cutoff: int) returns (at: seq<nat>)
    ensures Positions(at, |t|, LogPlace(t, cutoff))
    ensures |at| == |RecentLogs(t, cutoff)|
    ensures forall j | 0 <= j < |at| :: RecentLogs(t, cutoff)[j] == Entry(t[at[j]].key, Recent(t[at[j]].value, cutoff))
    decreases |t|
  {
    if t == [] {
      return [];
    }
    var last := |t| - 1;
    var front := LogsAt(t[..last], cutoff);
    assert t == t[..last] + [t[last]];
    LogsAppend(t[..last], [t[last]], cutoff);
    assert LogPlace(t, cutoff)(last) == (Recent(t[last].value, cutoff) != []);
    PositionsMore(front, last, LogPlace(t[..last], cutoff), LogPlace(t, cutoff));
    at := front + if Recent(t[last].value, cutoff) != [] then [last] else [];
  }

  lemma {:induction false} RecentAppend<T>(a: seq<Stamped<T>>, b: seq<Stamped<T>>, cutoff: int)
    ensures Recent(a + b, cutoff) == Recent(a, cutoff) + Recent(b, cutoff)
  {
    if a == [] {
      assert a + b == b && [] + Recent(b, cutoff) == Recent(b, cutoff);
    } else {
      assert (a + b)[1..] == a[1..] + b;
      RecentAppend(a[1..], b, cutoff);
      Associative(if a[0].at >= cutoff then [a[0]] else [], Recent(a[1..], cutoff), Recent(b, cutoff));
    }
  }

  // ---------------------------------------------------------------- a second sweep

  lemma {:induction false} RecentTwice<T>(s: seq<Stamped<T>>, cutoff: int)
    ensures Recent(Recent(s, cutoff), cutoff) == Recent(s, cutoff) && OldIn(Recent(s, cutoff), cutoff) == 0
  {
    if s != [] {
      RecentTwice(s[1..], cutoff);
      var rest := Recent(s[1..], cutoff);
      assert ([s[0]] + rest)[1..] == rest && [] + rest == rest;
    }
  }

  lemma {:induction false} KeepTwice<T>(t: Records<T>, cutoff: int)
    ensures Keep(Keep(t, Live(cutoff)), Live(cutoff)) == Keep(t, Live(cutoff))
    ensures OldRecords(Keep(t, Live(cutoff)), cutoff) == 0
  {
    if t != [] {
      KeepTwice(t[1..], cutoff);
      var rest := Keep(t[1..], Live(cutoff));
      assert ([t[0]] + rest)[1..] == rest && [] + rest == rest;
    }
  }

  lemma {:induction false} LogsTwice<T>(t: Logs<T>, cutoff: int)
    ensures RecentLogs(RecentLogs(t, cutoff), cutoff) == RecentLogs(t, cutoff)
    ensures OldEntries(RecentLogs(t, cutoff), cutoff) == 0
  {
    if t != [] {
      LogsTwice(t[1..], cutoff);
      RecentTwice(t[0].value, cutoff);
      var kept, rest := Entry(t[0].key, Recent(t[0].value, cutoff)), RecentLogs(t[1..], cutoff);
      assert ([kept] + rest)[1..] == rest && [] + rest == rest;
    }
  }

  /** Main result: a second sweep at the same time changes nothing and counts nothing. */
  lemma SweptTwice<T>(lives: Lives, s: Stores<T>, now: int)
    ensures var c := CutoffsAt(lives, now);
            Swept(Swept(s, c), c) == Swept(s, c) && Planned(Swept(s, c), c) == Counts(0, 0, 0, 0, 0)
  {
    var c := CutoffsAt(lives, now);
    KeepTwice(s.settings, c.settings);
    LogsTwice(s.audit, c.audit);
    KeepTwice(s.push, c.push);
    KeepTwice(s.consent, c.consent);
    RecentTwice(s.events, c.event);
  }

  /** A log that was already empty goes without being counted. */
  predicate NoEmptyLog<T>(t: Logs<T>) { forall i | 0 <= i < |t| :: t[i].value != [] }

  lemma {:induction false} NothingOldIn<T>(s: seq<Stamped<T>>, cutoff: int)
    ensures OldIn(s, cutoff) == 0 <==> Recent(s, cutoff) == s
  {
    OldAndRecent(s, cutoff);
    if OldIn(s, cutoff) == 0 {
      RecentAll(s, cutoff);
    }
  }

  lemma {:induction false} NothingOldRecords<T>(t: Records<T>, cutoff: int)
    ensures OldRecords(t, cutoff) == 0 <==> Keep(t, Live(cutoff)) == t
  {
    OldAndKept(t, cutoff);
    if t != [] && OldRecords(t, cutoff) == 0 {
      NothingOldRecords(t[1..], cutoff);
    }
  }

  lemma {:induction false} FewerLogs<T>(t: Logs<T>, cutoff: int)
    ensures |RecentLogs(t, cutoff)| <= |t|
  {
    if t != [] {
      FewerLogs(t[1..], cutoff);
    }
  }

  lemma {:induction false} NothingOldEntries<T>(t: Logs<T>, cutoff: int)
    ensures OldEntries(t, cutoff) == 0 && NoEmptyLog(t) <==> RecentLogs(t, cutoff) == t
  {
    if t != [] {
      NothingOldIn(t[0].value, cutoff);
      NothingOldEntries(t[1..], cutoff);
      FewerLogs(t[1..], cutoff);
      NoEmptyParts(t);
      var kept, rest := Recent(t[0].value, cutoff), RecentLogs(t[1..], cutoff);
      if kept == [] {
        assert [] + rest == rest && |rest| < |t|;
      } else {
        assert ([Entry(t[0].key, kept)] + rest)[1..] == rest;
        assert RecentLogs(t, cutoff) == t <==> Entry(t[0].key, kept) == t[0] && rest == t[1..] by {
          assert t == [t[0]] + t[1..];
        }
      }
    }
  }

  lemma NoEmptyParts<T>(t: Logs<T>)
    requires t != []
    ensures NoEmptyLog(t) <==> t[0].value != [] && NoEmptyLog(t[1..])
  {
    assert forall i | 1 <= i < |t| :: t[i] == t[1..][i - 1];
    assert forall i | 0 <= i < |t[1..]| :: t[1..][i] == t[i + 1];
  }

  /** Main result: a sweep leaves the stores as they are exactly when the dry run counts nothing and no log is empty. */
  lemma UnchangedExactly<T>(lives: Lives, s: Stores<T>, now: int)
    ensures var c := CutoffsAt(lives, now);
            Swept(s, c) == s <==> Planned(s, c) == Counts(0, 0, 0, 0, 0) && NoEmptyLog(s.audit)
  {
    var c := CutoffsAt(lives, now);
    NothingOldRecords(s.settings, c.settings);
    NothingOldEntries(s.audit, c.audit);
    NothingOldRecords(s.push, c.push);
    NothingOldRecords(s.consent, c.consent);
    NothingOldIn(s.events, c.event);
  }
}
