/**
 The hourly budget of the message journal (server/message-audit.ts:87-112): a
 bounded, insertion-ordered table of windows, one for each caller.
 */
module MessageBudget {

  import opened Text
  import opened OrderedMap

  const BUDGET_WINDOW_MS := 60 * 60 * 1000
  const MAX_WINDOWS := 20_000

  datatype Window = Window(start: int, used: int)

  type Windows = Table<string, Window>

  predicate Over(w: Window, now: int) { now - w.start >= BUDGET_WINDOW_MS }

  /** The test for a window that is not over. */
  function Running(now: int): Entry<string, Window> -> bool { (e: Entry<string, Window>) => !Over(e.value, now) }

  /** Room for one more window: those that are over go, and then the first if it is still full. */
  function Roomy(t: Windows, now: int): Windows {
    if |t| < MAX_WINDOWS then t
    else
      var kept := Keep(t, Running(now));
      if |kept| >= MAX_WINDOWS then kept[1..] else kept
  }

  /** The caller's window at `now`, and the table that holds it. */
  datatype Opened = Opened(windows: Windows, window: Window)

  function Current(t: Windows, key: string, now: int): Opened {
    match Get(t, key)
    case None => Opened(Put(Roomy(t, now), key, Window(now, 0)), Window(now, 0))
    case Some(w) => if Over(w, now) then Opened(Put(t, key, Window(now, 0)), Window(now, 0)) else Opened(t, w)
  }

  function Granted(want: int, limit: int, used: int): (n: nat)
    ensures n <= want || n == 0
    ensures used <= limit ==> used + n <= limit
  {
    var n := if want <= limit - used then want else limit - used;
    if n > 0 then n else 0
  }

  datatype Taken = Taken(windows: Windows, granted: nat)

  function Takes(t: Windows, key: string, want: int, limit: int, now: int): Taken {
    var o := Current(t, key, now);
    var n := Granted(want, limit, o.window.used);
    Taken(Put(o.windows, key, o.window.(used := o.window.used + n)), n)
  }

  class Budgets {
    var windows: Table<string, Window>

    constructor ()
      ensures windows == []
    {
      windows := [];
    }

    /** The loop over a full table: deletes the windows that are over while it walks. */
    method DropOver(now: int)
      modifies this
      ensures windows == Keep(old(windows), Running(now))
    {
      var i := 0;
      assert windows[..0] == [];
      while i < |windows|
        invariant 0 <= i <= |windows|
        invariant windows[..i] + Keep(windows[i..], Running(now)) == Keep(old(windows), Running(now))
        decreases |windows| - i
      {
        ghost var before := windows;
        var e := windows[i];
        KeepFirst(windows[i..], Running(now));
        assert windows[i..][1..] == windows[i + 1..];
        if Over(e.value, now) {
          windows := windows[..i] + windows[i + 1..];
          assert windows[..i] == before[..i] && windows[i..] == before[i + 1..];
        } else {
          assert windows[..i + 1] == windows[..i] + [e];
          Associative(windows[..i], [e], Keep(windows[i + 1..], Running(now)));
          i := i + 1;
        }
      }
      assert windows[..i] == windows;
    }

    /** The first half of a call: the caller's window, begun anew if there is none or it is over. */
    method Open(key: string, now: int) returns (b: Window)
      modifies this
      ensures Opened(windows, b) == Current(old(windows), key, now)
    {
      var found := Get(windows, key);
      if found.Some? && !Over(found.value, now) {
        return found.value;
      }
      if found.None? && |windows| >= MAX_WINDOWS {
        DropOver(now);
        if |windows| >= MAX_WINDOWS {
          windows := windows[1..];
        }
      }
      b := Window(now, 0);
      windows := Put(windows, key, b);
    }

    method Take(key: string, want: int, limit: int, now: int) returns (granted: nat)
      modifies this
      ensures Taken(windows, granted) == Takes(old(windows), key, want, limit, now)
    {
      var b := Open(key, now);
      granted := Granted(want, limit, b.used);
      b := b.(used := b.used + granted);
      windows := Put(windows, key, b);
    }
  }

  // ---------------------------------------------------------------- one call

  predicate Good(t: Windows) { Distinct(t) && |t| <= MAX_WINDOWS }

  lemma RoomyGood(t: Windows, now: int)
    requires Good(t)
    ensures Distinct(Roomy(t, now)) && |Roomy(t, now)| < MAX_WINDOWS
  {
    KeepDistinct(t, Running(now));
  }

  /** The key of the window that goes although it is not over. */
  function Evicted(t: Windows, key: string, now: int): Option<string> {
    if Get(t, key).None? && |t| >= MAX_WINDOWS && |Keep(t, Running(now))| >= MAX_WINDOWS
    then Some(Keep(t, Running(now))[0].key)
    else None
  }

  lemma RoomyOther(t: Windows, key: string, now: int, other: string)
    requires Good(t) && Get(t, key).None?
    ensures var w := Get(t, other);
            Get(Roomy(t, now), other) ==
            if w.Some? && |t| >= MAX_WINDOWS &&
                (Over(w.value, now) || Evicted(t, key, now) == Some(other)) then None else w
  {
    if |t| >= MAX_WINDOWS {
      var kept := Keep(t, Running(now));
      GetKeep(t, Running(now), other);
      KeepDistinct(t, Running(now));
      if |kept| >= MAX_WINDOWS {
        FirstAlone(kept);
      }
    }
  }

  /** A window stays as it was, or it goes because it is over or thrown out. */
  predicate StaysOrGoes(w: Option<Window>, after: Option<Window>, now: int, out: bool) {
    after == w || (w.Some? && after.None? && (Over(w.value, now) || out))
  }

  lemma CurrentOther(t: Windows, key: string, now: int, other: string)
    requires Good(t) && other != key
    ensures var w, after := Get(t, other), Get(Current(t, key, now).windows, other);
            StaysOrGoes(w, after, now, Evicted(t, key, now) == Some(other))
  {
    match Get(t, key)
    case None =>
      RoomyOther(t, key, now, other);
      GetPut(Roomy(t, now), key, Window(now, 0), other);
    case Some(w) =>
      GetPut(t, key, Window(now, 0), other);
  }

  /** The second half of a call: the window counts what it grants. */
  lemma CountedIn(o: Opened, key: string, n: nat, other: string)
    ensures Get(Put(o.windows, key, o.window.(used := o.window.used + n)), other) ==
            if other == key then Some(o.window.(used := o.window.used + n)) else Get(o.windows, other)
  {
    GetPut(o.windows, key, o.window.(used := o.window.used + n), other);
  }

  lemma TakesOther(t: Windows, key: string, want: int, limit: int, now: int, other: string)
    requires other != key
    ensures Get(Takes(t, key, want, limit, now).windows, other) == Get(Current(t, key, now).windows, other)
  {
    var o := Current(t, key, now);
    CountedIn(o, key, Granted(want, limit, o.window.used), other);
  }

  /** What a call does to the windows of the others: nothing, but for some that are over and at most one that is not. */
  lemma OtherKey(t: Windows, key: string, want: int, limit: int, now: int, other: string)
    requires Good(t) && other != key
    ensures var w, after := Get(t, other), Get(Takes(t, key, want, limit, now).windows, other);
            StaysOrGoes(w, after, now, Evicted(t, key, now) == Some(other))
  {
    CurrentOther(t, key, now, other);
    TakesOther(t, key, want, limit, now, other);
  }

  /** The caller's own window before a call counts anything: the running one, or a new one. */
  function OwnOf(w: Option<Window>, now: int): Window {
    if w.Some? && !Over(w.value, now) then w.value else Window(now, 0)
  }

  function Own(t: Windows, key: string, now: int): Window { OwnOf(Get(t, key), now) }

  lemma OwnKey(t: Windows, key: string, want: int, limit: int, now: int)
    ensures var r, w := Takes(t, key, want, limit, now), Own(t, key, now);
            && r.granted == Granted(want, limit, w.used)
            && Get(r.windows, key) == Some(w.(used := w.used + r.granted))
  {
    var o := Current(t, key, now);
    CountedIn(o, key, Granted(want, limit, o.window.used), key);
  }

  lemma CurrentGood(t: Windows, key: string, now: int)
    requires Good(t)
    ensures Good(Current(t, key, now).windows) && Has(Current(t, key, now).windows, key)
  {
    match Get(t, key)
    case None =>
      RoomyGood(t, now);
      PutDistinct(Roomy(t, now), key, Window(now, 0));
      GetPut(Roomy(t, now), key, Window(now, 0), key);
    case Some(_) =>
      PutDistinct(t, key, Window(now, 0));
      GetPut(t, key, Window(now, 0), key);
  }

  lemma TakesGood(t: Windows, key: string, want: int, limit: int, now: int)
    requires Good(t)
    ensures Good(Takes(t, key, want, limit, now).windows)
  {
    CurrentGood(t, key, now);
    var o := Current(t, key, now);
    PutDistinct(o.windows, key, o.window.(used := o.window.used + Granted(want, limit, o.window.used)));
  }

  // ---------------------------------------------------------------- any run

  datatype Call = Call(key: string, want: int, now: int)

  function Step(limits: string -> nat, t: Windows, c: Call): Taken { Takes(t, c.key, c.want, limits(c.key), c.now) }

  function Run(limits: string -> nat, calls: seq<Call>): Windows {
    if calls == [] then []
    else Step(limits, Run(limits, calls[..|calls| - 1]), calls[|calls| - 1]).windows
  }

  lemma {:induction false} RunGood(limits: string -> nat, calls: seq<Call>)
    ensures Good(Run(limits, calls))
    decreases |calls|
  {
    if calls != [] {
      var before, last := calls[..|calls| - 1], calls[|calls| - 1];
      RunGood(limits, before);
      TakesGood(Run(limits, before), last.key, last.want, limits(last.key), last.now);
    }
  }

  /** What the last call grants to `key`. */
  function LastGrant(limits: string -> nat, calls: seq<Call>, key: string): nat
    requires calls != []
  {
    var last := calls[|calls| - 1];
    if last.key == key then Step(limits, Run(limits, calls[..|calls| - 1]), last).granted else 0
  }

  /** What `key` has been granted since its present window began. */
  function SinceWindow(limits: string -> nat, calls: seq<Call>, key: string): nat {
    if calls == [] then 0
    else
      var before, last := calls[..|calls| - 1], calls[|calls| - 1];
      var w := Get(Run(limits, before), key);
      LastGrant(limits, calls, key) +
      if last.key == key && (w.None? || Over(w.value, last.now)) then 0 else SinceWindow(limits, before, key)
  }

  /** Main result: a call is granted as much as it wants and its window has left, and nothing more would fit. */
  lemma GrantedMost(t: Windows, key: string, want: int, limit: int, now: int, more: nat)
    ensures var own := Own(t, key, now);
            var r := Takes(t, key, want, limit, now);
            && (more <= want && own.used + more <= limit ==> more <= r.granted)
            && (r.granted > 0 ==> r.granted <= want && own.used + r.granted <= limit)
            && Get(r.windows, key) == Some(Window(own.start, own.used + r.granted))
  {
    OwnKey(t, key, want, limit, now);
  }

  /** Main result: a window has counted just what it granted, and that is within the caller's limit. */
  lemma {:induction false} WindowBound(limits: string -> nat, calls: seq<Call>, key: string)
    requires Get(Run(limits, calls), key).Some?
    ensures Get(Run(limits, calls), key).value.used == SinceWindow(limits, calls, key) <= limits(key)
    decreases |calls|
  {
    if calls != [] {
      var before, last := calls[..|calls| - 1], calls[|calls| - 1];
      var t := Run(limits, before);
      RunGood(limits, before);
      if last.key != key {
        OtherKey(t, last.key, last.want, limits(last.key), last.now, key);
        WindowBound(limits, before, key);
      } else {
        OwnKey(t, key, last.want, limits(key), last.now);
        if Get(t, key).Some? {
          WindowBound(limits, before, key);
        }
      }
    }
  }

  /** What `key` is granted by the calls from `i` on. */
  function GrantedFrom(limits: string -> nat, calls: seq<Call>, key: string, i: nat): nat
    requires i <= |calls|
    decreases |calls|
  {
    if |calls| == i then 0
    else LastGrant(limits, calls, key) + GrantedFrom(limits, calls[..|calls| - 1], key, i)
  }

  /** From `i` on the clock stays in `[start, start + one hour)`, and no call throws a running window of `key` out. */
  predicate WithinHour(limits: string -> nat, calls: seq<Call>, key: string, i: nat, start: int)
    requires i <= |calls|
    decreases |calls|
  {
    |calls| == i ||
    (var before, last := calls[..|calls| - 1], calls[|calls| - 1];
     && WithinHour(limits, before, key, i, start)
     && start <= last.now < start + BUDGET_WINDOW_MS
     && (last.key != key ==> Evicted(Run(limits, before), last.key, last.now) != Some(key)))
  }

  /** The grants so far are those of the present window, or of it and one more that began before the hour. */
  predicate Fits(w: Option<Window>, granted: int, start: int, limit: int) {
    match w
    case None => granted <= limit
    case Some(b) => 0 <= b.used <= limit && (granted <= b.used || (b.start >= start && granted <= limit + b.used))
  }

  lemma {:induction false} HourFits(limits: string -> nat, calls: seq<Call>, key: string, i: nat, start: int)
    requires i <= |calls| && WithinHour(limits, calls, key, i, start)
    ensures Fits(Get(Run(limits, calls), key), GrantedFrom(limits, calls, key, i), start, limits(key))
    decreases |calls|
  {
    if |calls| == i {
      if Get(Run(limits, calls), key).Some? {
        WindowBound(limits, calls, key);
      }
    } else {
      var before, last := calls[..|calls| - 1], calls[|calls| - 1];
      HourFits(limits, before, key, i, start);
      RunGood(limits, before);
      if last.key != key {
        OtherKey(Run(limits, before), last.key, last.want, limits(last.key), last.now, key);
      } else {
        OwnKey(Run(limits, before), key, last.want, limits(key), last.now);
      }
    }
  }

  /**
   Main result: in any hour a caller is granted at most twice its limit, as long as
   its running window is not thrown out.
   */
  lemma HourBound(limits: string -> nat, calls: seq<Call>, key: string, i: nat, start: int)
    requires i <= |calls| && WithinHour(limits, calls, key, i, start)
    ensures GrantedFrom(limits, calls, key, i) <= 2 * limits(key)
  {
    HourFits(limits, calls, key, i, start);
  }

  /** Twice the limit can be granted within a millisecond, at the end of one window and the start of the next. */
  lemma HourBoundReached(key: string, limit: nat)
    ensures var calls := [Call(key, 0, 0), Call(key, limit, BUDGET_WINDOW_MS - 1), Call(key, limit, BUDGET_WINDOW_MS)];
            GrantedFrom(_ => limit, calls, key, 1) == 2 * limit
  {
    var limits: string -> nat := _ => limit;
    var c0, c1, c2 := Call(key, 0, 0), Call(key, limit, BUDGET_WINDOW_MS - 1), Call(key, limit, BUDGET_WINDOW_MS);
    OneMoreGrant(limits, [], c0, None);
    OneMoreGrant(limits, [c0], c1, Some(Window(0, 0)));
    OneMoreGrant(limits, [c0, c1], c2, Some(Window(0, limit)));
    assert [] + [c0] == [c0] && [c0] + [c1] == [c0, c1] && [c0, c1] + [c2] == [c0, c1, c2];
    assert GrantedFrom(limits, [c0], key, 1) == 0;
    assert [c0, c1][..1] == [c0] && [c0, c1, c2][..2] == [c0, c1];
  }

  lemma OneMoreGrant(limits: string -> nat, calls: seq<Call>, c: Call, w: Option<Window>)
    requires Get(Run(limits, calls), c.key) == w
    ensures var own := OwnOf(w, c.now);
            var n := Granted(c.want, limits(c.key), own.used);
            LastGrant(limits, calls + [c], c.key) == n
            && Get(Run(limits, calls + [c]), c.key) == Some(own.(used := own.used + n))
  {
    RunMore(limits, calls, c);
    StepOwn(limits, Run(limits, calls), c, w);
  }

  lemma StepOwn(limits: string -> nat, t: Windows, c: Call, w: Option<Window>)
    requires Get(t, c.key) == w
    ensures var own := OwnOf(w, c.now);
            var n := Granted(c.want, limits(c.key), own.used);
            Step(limits, t, c).granted == n &&
                Get(Step(limits, t, c).windows, c.key) == Some(own.(used := own.used + n))
  {
    OwnKey(t, c.key, c.want, limits(c.key), c.now);
  }

  lemma RunMore(limits: string -> nat, calls: seq<Call>, c: Call)
    ensures Run(limits, calls + [c]) == Step(limits, Run(limits, calls), c).windows
    ensures LastGrant(limits, calls + [c], c.key) == Step(limits, Run(limits, calls), c).granted
  {
    assert (calls + [c])[..|calls|] == calls;
  }

  // ---------------------------------------------------------------- throwing windows out

  /** A full table of running windows. */
  predicate FullAndRunning(t: Windows, now: int) {
    Distinct(t) && |t| == MAX_WINDOWS && forall i | 0 <= i < |t| :: !Over(t[i].value, now)
  }

  /** Whoever comes next throws out the window that was put first, and that caller may start over. */
  lemma FirstGoes(t: Windows, key: string, want: int, limit: int, now: int)
    requires FullAndRunning(t, now) && Get(t, key).None?
    ensures Evicted(t, key, now) == Some(t[0].key)
    ensures Get(Takes(t, key, want, limit, now).windows, t[0].key).None?
    ensures forall more, cap ::
              Takes(Takes(t, key, want, limit, now).windows, t[0].key, more, cap, now).granted == Granted(more, cap, 0)
  {
    KeepAll(t, Running(now));
    FirstAlone(t);
    var o := Current(t, key, now);
    assert Roomy(t, now) == t[1..];
    GetAt(t, 0);
    GetPut(t[1..], key, Window(now, 0), t[0].key);
    GetPut(o.windows, key, o.window.(used := o.window.used + Granted(want, limit, o.window.used)), t[0].key);
    var u := Takes(t, key, want, limit, now).windows;
    forall more, cap ensures Takes(u, t[0].key, more, cap, now).granted == Granted(more, cap, 0) {
      OwnKey(u, t[0].key, more, cap, now);
    }
  }

  function Name(n: nat): string { seq(n, _ => 'x') }

  /** A table in which the first caller's window is about to be over and all the others began later. */
  function Busy(): Windows { seq(MAX_WINDOWS, i requires 0 <= i < MAX_WINDOWS => Entry(Name(i), Window(i, 0))) }

  /** One call by each of the callers, a millisecond apart. */
  function BusyCalls(n: nat): seq<Call> { seq(n, i requires 0 <= i < n => Call(Name(i), 0, i)) }

  lemma {:induction false} BusyRun(limits: string -> nat, n: nat)
    requires n <= MAX_WINDOWS
    ensures Run(limits, BusyCalls(n)) == Busy()[..n]
  {
    if n > 0 {
      BusyRun(limits, n - 1);
      BusyMore(n, Busy()[..n - 1], Name(n - 1));
      NewCaller(Busy()[..n - 1], Name(n - 1), limits(Name(n - 1)), n - 1);
      RunMore(limits, BusyCalls(n - 1), Call(Name(n - 1), 0, n - 1));
    }
  }

  lemma BusyMore(n: nat, t: Windows, key: string)
    requires 0 < n <= MAX_WINDOWS && t == Busy()[..n - 1] && key == Name(n - 1)
    ensures BusyCalls(n) == BusyCalls(n - 1) + [Call(key, 0, n - 1)]
    ensures Busy()[..n] == t + [Entry(key, Window(n - 1, 0))] && !Has(t, key)
  {
    assert forall i | 0 <= i < |t| :: |t[i].key| == i;
    assert |key| == n - 1;
  }

  /** A new caller with room for its window, who wants nothing yet. */
  lemma NewCaller(t: Windows, key: string, limit: nat, now: int)
    requires !Has(t, key) && |t| < MAX_WINDOWS
    ensures Takes(t, key, 0, limit, now).windows == t + [Entry(key, Window(now, 0))]
  {
    PutNew(t, key, Window(now, 0));
    PutLast(t, key, Window(now, 0));
  }

  lemma {:induction false} PutLast(t: Windows, key: string, w: Window)
    requires !Has(t, key)
    ensures Put(t + [Entry(key, w)], key, w) == t + [Entry(key, w)]
  {
    var u := t + [Entry(key, w)];
    if t != [] {
      assert t[0].key != key;
      forall i | 0 <= i < |t[1..]| ensures t[1..][i].key != key {
        assert t[i + 1].key != key;
      }
      PutLast(t[1..], key, w);
      assert u[1..] == t[1..] + [Entry(key, w)];
    }
  }

  /** The calls that fill the table, and the first caller once more when its window is over. */
  function FaultyCalls(): seq<Call> { BusyCalls(MAX_WINDOWS) + [Call(Name(0), 0, BUDGET_WINDOW_MS)] }

  /**
   Main result: the comment says that the oldest window goes. A window begun
   anew keeps its old place; so after these calls the newest of all goes.
   */
  lemma NewestGoes(limits: string -> nat, key: string)
    requires Get(Busy(), key).None?
    ensures var t := Run(limits, FaultyCalls());
            && FullAndRunning(t, BUDGET_WINDOW_MS) && Evicted(t, key, BUDGET_WINDOW_MS) == Some(Name(0))
            && t[0].key == Name(0) && forall i | 1 <= i < |t| :: t[i].value.start < t[0].value.start
  {
    BusyShape();
    BusyRun(limits, MAX_WINDOWS);
    assert Busy()[..MAX_WINDOWS] == Busy();
    RunMore(limits, BusyCalls(MAX_WINDOWS), Call(Name(0), 0, BUDGET_WINDOW_MS));
    RenewedFirst(Busy(), Name(0), limits(Name(0)), Window(BUDGET_WINDOW_MS, 0));
    RenewedGoes(Busy(), Busy()[0 := Entry(Name(0), Window(BUDGET_WINDOW_MS, 0))], key);
  }

  /** Full, with a first window that is over after an hour and others that began later within it. */
  predicate FirstOver(t: Windows) {
    && Distinct(t) && |t| == MAX_WINDOWS && t[0].value == Window(0, 0)
    && forall i | 1 <= i < |t| :: 0 < t[i].value.start < BUDGET_WINDOW_MS
  }

  lemma RenewedGoes(t: Windows, u: Windows, key: string)
    requires FirstOver(t) && u == t[0 := Entry(t[0].key, Window(BUDGET_WINDOW_MS, 0))] && Get(t, key).None?
    ensures FullAndRunning(u, BUDGET_WINDOW_MS) && Evicted(u, key, BUDGET_WINDOW_MS) == Some(t[0].key)
    ensures forall i | 1 <= i < |u| :: u[i].value.start < u[0].value.start
  {
    SameKeys(t, u);
    PutAt(t, 0, u[0].value);
    GetPut(t, t[0].key, u[0].value, key);
    GetAt(t, 0);
    FirstGoes(u, key, 0, 0, BUDGET_WINDOW_MS);
  }

  /** A first window that is over begins anew in its place. */
  lemma RenewedFirst(t: Windows, key: string, limit: nat, renewed: Window)
    requires Distinct(t) && t != [] && t[0].key == key && Over(t[0].value, renewed.start) && renewed.used == 0
    ensures var u := t[0 := Entry(key, renewed)];
            Takes(t, key, 0, limit, renewed.start).windows == u && Put(t, key, renewed) == u && Distinct(u)
  {
    var u := t[0 := Entry(key, renewed)];
    GetAt(t, 0);
    PutAt(t, 0, renewed);
    SameKeys(t, u);
    PutAt(u, 0, renewed);
    assert u[0 := u[0]] == u;
  }

  lemma BusyShape()
    ensures FirstOver(Busy()) && Busy()[0].key == Name(0)
  {
    var b := Busy();
    forall i, j | 0 <= i < |b| && 0 <= j < |b| && i != j ensures b[i].key != b[j].key {
      assert |b[i].key| == i && |b[j].key| == j;
    }
  }

  lemma SameKeys(t: Windows, u: Windows)
    requires |t| == |u| && Distinct(t) && forall i | 0 <= i < |t| :: t[i].key == u[i].key
    ensures Distinct(u)
  {}

  predicate InStartOrder(t: Windows) { forall i, j | 0 <= i < j < |t| :: t[i].value.start <= t[j].value.start }

  /** No window began before the `k`th. */
  predicate IsOldest(t: Windows, k: nat)
    requires k < |t|
  {
    forall i | 0 <= i < |t| :: t[k].value.start <= t[i].value.start
  }

  /**
   When a window is thrown out the table is full of running ones, and it is the
   first: so the `k`th goes exactly when k is 0.
   */
  lemma OldestGoes(t: Windows, key: string, now: int, k: nat)
    requires Good(t) && Evicted(t, key, now).Some? && k < |t|
    ensures FullAndRunning(t, now)
    ensures Evicted(t, key, now) == Some(t[k].key) <==> k == 0
  {
    AllKept(t, Running(now));
  }

  lemma {:induction false} AllKept(t: Windows, p: Entry<string, Window> -> bool)
    requires |Keep(t, p)| >= |t|
    ensures Keep(t, p) == t && forall i | 0 <= i < |t| :: p(t[i])
  {
    if t != [] {
      KeptAre(t[1..], p);
      KeepFirst(t, p);
      AllKept(t[1..], p);
      assert forall i | 1 <= i < |t| :: t[i] == t[1..][i - 1];
    }
  }

  predicate Timely(calls: seq<Call>) { forall i, j | 0 <= i < j < |calls| :: calls[i].now <= calls[j].now }

  /** The callers whose present window was begun anew in the place of one that was over. */
  function Renewed(limits: string -> nat, calls: seq<Call>): set<string> {
    if calls == [] then {}
    else
      var before, last := calls[..|calls| - 1], calls[|calls| - 1];
      RenewedBy(Renewed(limits, before), last.key, Get(Run(limits, before), last.key), last.now)
  }

  /** A window stands ahead of an older one only when it was begun anew; and none began later than now. */
  predicate Ranked(t: Windows, anew: set<string>, now: int) {
    && (forall i, j | 0 <= i < j < |t| :: t[i].key in anew || t[i].value.start <= t[j].value.start)
    && (forall i | 0 <= i < |t| :: t[i].value.start <= now)
  }

  predicate NoneBefore(t: Windows, start: int) { forall i | 0 <= i < |t| :: start <= t[i].value.start }

  lemma KeepNoneBefore(t: Windows, p: Entry<string, Window> -> bool, start: int)
    requires NoneBefore(t, start)
    ensures NoneBefore(Keep(t, p), start)
  {
    KeptAre(t, p);
    var kept := Keep(t, p);
    forall i | 0 <= i < |kept| ensures start <= kept[i].value.start {
      assert kept[i] in t;
    }
  }

  lemma FirstRanked(e: Entry<string, Window>, rest: Windows, anew: set<string>, now: int)
    requires Ranked(rest, anew, now) && (e.key in anew || NoneBefore(rest, e.value.start)) && e.value.start <= now
    ensures Ranked([e] + rest, anew, now)
  {
    var t := [e] + rest;
    assert forall i | 1 <= i < |t| :: t[i] == rest[i - 1];
  }

  lemma {:induction false} KeepRanked(t: Windows, p: Entry<string, Window> -> bool, anew: set<string>, now: int)
    requires Ranked(t, anew, now)
    ensures Ranked(Keep(t, p), anew, now)
  {
    if t != [] {
      var kept := Keep(t[1..], p);
      KeepFirst(t, p);
      RestRanked(t, anew, now);
      KeepRanked(t[1..], p, anew, now);
      if t[0].key !in anew {
        KeepNoneBefore(t[1..], p, t[0].value.start);
      }
      FirstRanked(t[0], kept, anew, now);
    }
  }

  lemma RestRanked(t: Windows, anew: set<string>, now: int)
    requires t != [] && Ranked(t, anew, now)
    ensures Ranked(t[1..], anew, now)
  {
    forall i, j | 0 <= i < j < |t[1..]| ensures t[1..][i].key in anew ||
        t[1..][i].value.start <= t[1..][j].value.start {
      assert t[1..][i] == t[i + 1] && t[1..][j] == t[j + 1];
    }
  }

  lemma NewRanked(t: Windows, anew: set<string>, before: int, key: string, now: int)
    requires Good(t) && Ranked(t, anew, before) && before <= now && !Has(t, key)
    ensures var u := Put(Roomy(t, now), key, Window(now, 0)); Ranked(u, anew - {key}, now)
  {
    if |t| >= MAX_WINDOWS {
      KeepRanked(t, Running(now), anew, before);
      KeepHasNot(t, key, Running(now));
      KeptAre(t, Running(now));
      if |Keep(t, Running(now))| >= MAX_WINDOWS {
        RestRanked(Keep(t, Running(now)), anew, before);
      }
    }
    NewLast(Roomy(t, now), anew, key, now);
  }

  lemma NewLast(r: Windows, anew: set<string>, key: string, now: int)
    requires Ranked(r, anew, now) && forall i | 0 <= i < |r| :: r[i].key != key
    ensures Ranked(Put(r, key, Window(now, 0)), anew - {key}, now)
  {
    PutNew(r, key, Window(now, 0));
  }

  /** The own window, counting on or begun anew, stays in its place. */
  lemma OwnRanked(t: Windows, anew: set<string>, before: int, k: nat, w: Window, now: int)
    requires Distinct(t) && k < |t| && Ranked(t, anew, before) && before <= now
    requires w.start == t[k].value.start || (t[k].key in anew && w.start == now)
    ensures Ranked(Put(t, t[k].key, w), anew, now)
  {
    PutAt(t, k, w);
  }

  lemma MoreRanked(t: Windows, anew: set<string>, more: set<string>, now: int)
    requires Ranked(t, anew, now) && anew <= more
    ensures Ranked(t, more, now)
  {}

  /** The second half of a call: the window that counts what it grants keeps its place and its start. */
  lemma CountedRanked(o: Opened, anew: set<string>, now: int, key: string, n: nat)
    requires Distinct(o.windows) && Get(o.windows, key) == Some(o.window) && Ranked(o.windows, anew, now)
    ensures Ranked(Put(o.windows, key, o.window.(used := o.window.used + n)), anew, now)
  {
    var k :| 0 <= k < |o.windows| && o.windows[k].key == key;
    GetAt(o.windows, k);
    OwnRanked(o.windows, anew, now, k, o.window.(used := o.window.used + n), now);
  }

  /** Who has a window begun anew after a call that finds the caller's window as `w`. */
  function RenewedBy(anew: set<string>, key: string, w: Option<Window>, now: int): set<string> {
    match w
    case None => anew - {key}
    case Some(b) => if Over(b, now) then anew + {key} else anew
  }

  lemma CurrentRanked(t: Windows, anew: set<string>, before: int, key: string, now: int)
    requires Good(t) && Ranked(t, anew, before) && before <= now
    ensures var o := Current(t, key, now);
            Get(o.windows, key) == Some(o.window) && Ranked(o.windows, RenewedBy(anew, key, Get(t, key), now), now)
  {
    match Get(t, key)
    case None =>
      NewRanked(t, anew, before, key, now);
      GetPut(Roomy(t, now), key, Window(now, 0), key);
    case Some(w) =>
      var i :| 0 <= i < |t| && t[i].key == key;
      GetPut(t, key, Window(now, 0), key);
      if Over(w, now) {
        MoreRanked(t, anew, anew + {key}, before);
        OwnRanked(t, anew + {key}, before, i, Window(now, 0), now);
      }
  }

  /** A call in terms of its two halves. */
  lemma TakesIs(t: Windows, key: string, want: int, limit: int, now: int, o: Opened) returns (n: nat)
    requires o == Current(t, key, now)
    ensures Takes(t, key, want, limit, now).windows == Put(o.windows, key, o.window.(used := o.window.used + n))
  {
    n := Granted(want, limit, o.window.used);
  }

  lemma StepRanked(t: Windows, anew: set<string>, before: int, key: string, want: int, limit: int, now: int)
    requires Good(t) && Ranked(t, anew, before) && before <= now
    ensures Ranked(Takes(t, key, want, limit, now).windows, RenewedBy(anew, key, Get(t, key), now), now)
  {
    var o := Current(t, key, now);
    var after := RenewedBy(anew, key, Get(t, key), now);
    assert Good(o.windows) by {
      CurrentGood(t, key, now);
    }
    CurrentRanked(t, anew, before, key, now);
    var n := TakesIs(t, key, want, limit, now, o);
    CountedRanked(o, after, now, key, n);
  }

  lemma {:induction false} RunRanked(limits: string -> nat, calls: seq<Call>, now: int)
    requires Timely(calls) && (calls != [] ==> calls[|calls| - 1].now <= now)
    ensures Ranked(Run(limits, calls), Renewed(limits, calls), now)
    decreases |calls|
  {
    if calls != [] {
      var before, last := calls[..|calls| - 1], calls[|calls| - 1];
      RunRanked(limits, before, last.now);
      RunGood(limits, before);
      var t, anew := Run(limits, before), Renewed(limits, before);
      StepRanked(t, anew, last.now, last.key, last.want, limits(last.key), last.now);
    }
  }

  /**
   Main result: by a clock that does not go back the windows are in the order
   of their starts exactly when none that was begun anew is ahead of an older one.
   */
  lemma InOrderExactly(limits: string -> nat, calls: seq<Call>)
    requires Timely(calls)
    ensures var t := Run(limits, calls);
            InStartOrder(t) <==>
            forall i, j | 0 <= i < j < |t| && t[i].key in Renewed(limits, calls) :: t[i].value.start <= t[j].value.start
  {
    RunRanked(limits, calls, if calls == [] then 0 else calls[|calls| - 1].now);
  }

  /**
   Main result: the window that a call throws out is an oldest one, exactly
   when the first was not begun anew after another one still in the table.
   */
  lemma OldestGoesExactly(limits: string -> nat, calls: seq<Call>, key: string, now: int, k: nat)
    requires Timely(calls) && k < |Run(limits, calls)| &&
             Evicted(Run(limits, calls), key, now) == Some(Run(limits, calls)[k].key)
    ensures var t := Run(limits, calls);
            IsOldest(t, k) <==>
            !(t[0].key in Renewed(limits, calls) && exists i | 0 <= i < |t| :: t[i].value.start < t[0].value.start)
  {
    RunGood(limits, calls);
    OldestGoes(Run(limits, calls), key, now, k);
    RunRanked(limits, calls, if calls == [] then 0 else calls[|calls| - 1].now);
  }
}
