/**
 How two browsers without a server of their own agree on a connection
 (browser-only-firebase/app.js:199-334, 462-476): each side's state, the box of
 signals, and every interleaving of the asynchronous steps between them.
 */
module Signalling {

  import opened Text

  datatype Kind = Offer | Answer | Ice

  datatype Signal = Signal(from: string, to: string, secret: string, kind: Kind)

  /** `pc.signalingState`, as far as offers and answers move it. */
  datatype Signaling = Stable | HaveLocalOffer | HaveRemoteOffer | Closed

  datatype Record = Record(signaling: Signaling, makingOffer: bool)

  /** Where an asynchronous function waits, and for which record. */
  datatype Task =
    | MakeOffer(rec: nat) | SendOffer(rec: nat)
    | TakeOffer(rec: nat) | MakeAnswer(rec: nat) | SendAnswer(rec: nat)
    | TakeAnswer(rec: nat)

  /**
   One side of a pair: the record of the connection that counts, all records
   made so far, what is still under way, and the signals seen.
   */
  datatype Side = Side(
    me: string, other: string, secret: string,
    current: Option<nat>, records: seq<Record>, tasks: seq<Task>, processed: set<nat>)

  predicate Sound(s: Side) {
    && (s.current.Some? ==> s.current.value < |s.records|)
    && forall i | 0 <= i < |s.tasks| :: s.tasks[i].rec < |s.records|
  }

  predicate Polite(s: Side) { Less(s.other, s.me) }

  predicate SameClient(s: Side, t: Side) { s.me == t.me && s.other == t.other && s.secret == t.secret }

  // ---------------------------------------------------------------- what one side does

  /** `ensurePeerConnection`: the impolite side begins to negotiate at once. */
  function Ensured(s: Side): (t: Side)
    requires Sound(s)
    ensures Sound(t) && t.current.Some? && SameClient(s, t)
  {
    if s.current.Some? then s
    else
      var n := |s.records|;
      if Polite(s) then s.(current := Some(n), records := s.records + [Record(Stable, false)])
      else s.(current := Some(n), records := s.records + [Record(Stable, true)], tasks := s.tasks + [MakeOffer(n)])
  }

  /** The collision that `handleSignal` looks for in an offer. */
  predicate Collides(r: Record) { r.makingOffer || r.signaling != Stable }

  /** Whether the branch that refuses an offer is taken. */
  predicate Refuses(s: Side, id: nat, signal: Signal)
    requires Sound(s)
  {
    && id !in s.processed && signal.from != s.me && signal.secret == s.secret && signal.kind == Offer
    && Collides(Ensured(s).records[Ensured(s).current.value]) && !Polite(s)
  }

  /** A signal arrives: one that was seen, or has another secret, does nothing. */
  function Received(s: Side, id: nat, signal: Signal): (t: Side)
    requires Sound(s)
    ensures Sound(t) && SameClient(s, t)
  {
    if id in s.processed || signal.from == s.me then s
    else
      var seen := s.(processed := s.processed + {id});
      if signal.secret != s.secret then seen
      else
        var t := Ensured(seen);
        match signal.kind
        case Offer => if Refuses(s, id, signal) then t else t.(tasks := t.tasks + [TakeOffer(t.current.value)])
        case Answer => t.(tasks := t.tasks + [TakeAnswer(t.current.value)])
        case Ice => t
  }

  function WithSignaling(s: Side, rec: nat, to: Signaling): Side
    requires rec < |s.records|
  {
    s.(records := s.records[rec := s.records[rec].(signaling := to)])
  }

  function NotMaking(s: Side, rec: nat): Side
    requires rec < |s.records|
  {
    s.(records := s.records[rec := s.records[rec].(makingOffer := false)])
  }

  function Without(tasks: seq<Task>, i: nat): seq<Task>
    requires i < |tasks|
  {
    tasks[..i] + tasks[i + 1..]
  }

  datatype Outcome = Outcome(side: Side, push: Option<Kind>, failed: bool)

  /** A task goes on to its next wait, or to its end; `failed` when the browser refuses the step. */
  function Continued(s: Side, i: nat): (o: Outcome)
    requires Sound(s) && i < |s.tasks|
    ensures Sound(o.side) && SameClient(s, o.side)
  {
    var rec := s.tasks[i].rec;
    var at := s.records[rec].signaling;
    var ended := s.(tasks := Without(s.tasks, i));
    match s.tasks[i]
    case MakeOffer(_) =>
      if at == Stable || at == HaveLocalOffer
      then Outcome(WithSignaling(s, rec, HaveLocalOffer).(tasks := s.tasks[i := SendOffer(rec)]), None, false)
      else Outcome(NotMaking(ended, rec), None, true)
    case SendOffer(_) => Outcome(NotMaking(ended, rec), Some(Offer), false)
    case TakeOffer(_) =>
      if at == Closed then Outcome(ended, None, true)
      else Outcome(WithSignaling(s, rec, HaveRemoteOffer).(tasks := s.tasks[i := MakeAnswer(rec)]), None, false)
    case MakeAnswer(_) =>
      if at != HaveRemoteOffer then Outcome(ended, None, true)
      else Outcome(WithSignaling(s, rec, Stable).(tasks := s.tasks[i := SendAnswer(rec)]), None, false)
    case SendAnswer(_) => Outcome(ended, Some(Answer), false)
    case TakeAnswer(_) =>
      if at != HaveLocalOffer then Outcome(ended, None, true)
      else Outcome(WithSignaling(ended, rec, Stable), None, false)
  }

  /** `closePeer`: what is under way for the record goes on, and finds it closed. */
  function ClosedPeer(s: Side): (t: Side)
    requires Sound(s)
    ensures Sound(t) && SameClient(s, t)
  {
    if s.current.None? then s else WithSignaling(s, s.current.value, Closed).(current := None)
  }

  // ---------------------------------------------------------------- the client

  class Client {
    const me: string
    const other: string
    const secret: string
    var current: Option<nat>
    var records: seq<Record>
    var tasks: seq<Task>
    var processed: set<nat>

    constructor (me: string, other: string, secret: string)
      ensures Now() == Side(me, other, secret, None, [], [], {})
    {
      this.me, this.other, this.secret := me, other, secret;
      current, records, tasks, processed := None, [], [], {};
    }

    function Now(): Side
      reads this
    {
      Side(me, other, secret, current, records, tasks, processed)
    }

    method EnsurePeerConnection() returns (rec: nat)
      requires Sound(Now())
      modifies this
      ensures Now() == Ensured(old(Now())) && current == Some(rec)
    {
      if current.Some? {
        return current.value;
      }
      rec := |records|;
      records := records + [Record(Stable, false)];
      current := Some(rec);
      var polite := Less(other, me);
      if !polite {
        records := records[rec := records[rec].(makingOffer := true)];
        tasks := tasks + [MakeOffer(rec)];
      }
    }

    method Receive(id: nat, signal: Signal)
      requires Sound(Now())
      modifies this
      ensures Now() == Received(old(Now()), id, signal)
    {
      if id in processed || signal.from == me {
        return;
      }
      processed := processed + {id};
      if signal.secret != secret {
        return;
      }
      var rec := EnsurePeerConnection();
      if signal.kind == Offer {
        var offerCollision := records[rec].makingOffer || records[rec].signaling != Stable;
        var polite := Less(other, me);
        if offerCollision && !polite {
          return;
        }
        tasks := tasks + [TakeOffer(rec)];
      } else if signal.kind == Answer {
        tasks := tasks + [TakeAnswer(rec)];
      }
    }

    method ClosePeer()
      requires Sound(Now())
      modifies this
      ensures Now() == ClosedPeer(old(Now()))
    {
      if current.Some? {
        var rec := current.value;
        records := records[rec := records[rec].(signaling := Closed)];
        current := None;
      }
    }

    /** Lets one waiting function go on; says which signal it pushes, if any. */
    method Continue(i: nat) returns (push: Option<Kind>)
      requires Sound(Now()) && i < |tasks|
      modifies this
      ensures Now() == Continued(old(Now()), i).side && push == Continued(old(Now()), i).push
    {
      push := None;
      var rec := tasks[i].rec;
      var record := records[rec];
      var ended := Without(tasks, i);
      match tasks[i] {
        case MakeOffer(_) =>
          if record.signaling == Stable || record.signaling == HaveLocalOffer {
            records := records[rec := record.(signaling := HaveLocalOffer)];
            tasks := tasks[i := SendOffer(rec)];
          } else {
            records := records[rec := record.(makingOffer := false)];
            tasks := ended;
          }
        case SendOffer(_) =>
          push := Some(Offer);
          records := records[rec := record.(makingOffer := false)];
          tasks := ended;
        case TakeOffer(_) =>
          if record.signaling == Closed {
            tasks := ended;
          } else {
            records := records[rec := record.(signaling := HaveRemoteOffer)];
            tasks := tasks[i := MakeAnswer(rec)];
          }
        case MakeAnswer(_) =>
          if record.signaling != HaveRemoteOffer {
            tasks := ended;
          } else {
            records := records[rec := record.(signaling := Stable)];
            tasks := tasks[i := SendAnswer(rec)];
          }
        case SendAnswer(_) =>
          push := Some(Answer);
          tasks := ended;
        case TakeAnswer(_) =>
          if record.signaling == HaveLocalOffer {
            records := records[rec := record.(signaling := Stable)];
          }
          tasks := ended;
      }
    }
  }

  // ---------------------------------------------------------------- two sides and the box

  /** The side with the smaller id, the one with the larger, and every signal pushed so far. */
  datatype World = World(small: Side, large: Side, box: seq<Signal>)

  datatype Who = Small | Large

  datatype Event =
    | Discover(who: Who)
    | Deliver(who: Who, id: nat)
    | Go(who: Who, task: nat)
    | Candidate(who: Who)
    | Close(who: Who)
    | Foreign(signal: Signal)

  function SideOf(w: World, who: Who): Side { if who == Small then w.small else w.large }

  function SetSide(w: World, who: Who, s: Side): World { if who == Small then w.(small := s) else w.(large := s) }

  predicate AllSound(w: World) { Sound(w.small) && Sound(w.large) }

  function Pushed(w: World, s: Side, kind: Kind): World { w.(box := w.box + [Signal(s.me, s.other, s.secret, kind)]) }

  /** Any event, at any time. A signal may be delivered again and again; one from outside has another secret. */
  function Step(w: World, e: Event): (v: World)
    requires AllSound(w)
    ensures AllSound(v) && SameClient(w.small, v.small) && SameClient(w.large, v.large)
  {
    match e
    case Discover(who) => SetSide(w, who, Ensured(SideOf(w, who)))
    case Deliver(who, id) =>
      if id < |w.box| && w.box[id].to == SideOf(w, who).me
      then SetSide(w, who, Received(SideOf(w, who), id, w.box[id])) else w
    case Go(who, i) =>
      if i >= |SideOf(w, who).tasks| then w
      else
        var o := Continued(SideOf(w, who), i);
        var v := SetSide(w, who, o.side);
        if o.push.Some? then Pushed(v, o.side, o.push.value) else v
    case Candidate(who) => if SideOf(w, who).current.Some? then Pushed(w, SideOf(w, who), Ice) else w
    case Close(who) => SetSide(w, who, ClosedPeer(SideOf(w, who)))
    case Foreign(signal) => if signal.secret != w.small.secret then w.(box := w.box + [signal]) else w
  }

  function Start(small: string, large: string, secret: string): World {
    World(Side(small, large, secret, None, [], [], {}), Side(large, small, secret, None, [], [], {}), [])
  }

  function Run(small: string, large: string, secret: string, events: seq<Event>): (w: World)
    ensures AllSound(w) && w.small.me == small && w.large.me == large && w.small.secret == w.large.secret == secret
  {
    if events == [] then Start(small, large, secret)
    else Step(Run(small, large, secret, events[..|events| - 1]), events[|events| - 1])
  }

  // ---------------------------------------------------------------- what a signal and a step do

  /**
   Main result: an offer that comes to a side that knows of the other is taken,
   unless that side has the smaller id and its connection is making an offer or
   not stable; then it is only noted as seen.
   */
  lemma OfferTaken(s: Side, id: nat, signal: Signal)
    requires Sound(s) && s.current.Some? && id !in s.processed
    requires signal.from != s.me && signal.secret == s.secret && signal.kind == Offer
    ensures var r := s.current.value;
            var busy := s.records[r].makingOffer || s.records[r].signaling != Stable;
            Received(s, id, signal) ==
            s.(processed := s.processed + {id},
               tasks := s.tasks + if busy && !Less(s.other, s.me) then [] else [TakeOffer(r)])
  {}

  /**
   Main result: a signal that was seen or is one's own does nothing; one with
   another secret is only noted as seen.
   */
  lemma SignalIgnored(s: Side, id: nat, signal: Signal)
    requires Sound(s) && (id in s.processed || signal.from == s.me || signal.secret != s.secret)
    ensures Received(s, id, signal) ==
            if id in s.processed || signal.from == s.me then s else s.(processed := s.processed + {id})
  {}

  /**
   Main result: every event pushes at most one signal, in the pusher's name and with
   its secret; nothing else is pushed.
   */
  lemma WhatIsPushed(w: World, e: Event)
    requires AllSound(w)
    ensures var pushed := Step(w, e).box;
            match e
            case Go(who, i) =>
              var s := SideOf(w, who);
              if i < |s.tasks| && s.tasks[i].SendOffer? then pushed == w.box + [Signal(s.me, s.other, s.secret, Offer)]
              else if i < |s.tasks| && s.tasks[i].SendAnswer? then
                pushed == w.box + [Signal(s.me, s.other, s.secret, Answer)]
              else pushed == w.box
            case Candidate(who) =>
              var s := SideOf(w, who);
              pushed == w.box + if s.current.None? then [] else [Signal(s.me, s.other, s.secret, Ice)]
            case Foreign(signal) => pushed == w.box + if signal.secret == w.small.secret then [] else [signal]
            case _ => pushed == w.box
  {}

  // ---------------------------------------------------------------- who offers and who answers

  predicate Pair(w: World) {
    && Less(w.small.me, w.large.me) && w.small.other == w.large.me && w.large.other == w.small.me
    && w.small.secret == w.large.secret
  }

  /** Among the signals with the room's secret, the smaller id sends the offers and the larger one the answers. */
  predicate Roles(w: World) {
    && Pair(w) && RightBox(w)
    && (forall i | 0 <= i < |w.small.tasks| :: SmallTask(w.small.tasks[i]))
    && (forall i | 0 <= i < |w.large.tasks| :: LargeTask(w.large.tasks[i]))
  }

  lemma PairPolite(w: World)
    requires Pair(w)
    ensures !Polite(w.small) && Polite(w.large) && w.small.me != w.large.me
  {
    LessTotal(w.small.me, w.large.me);
  }

  lemma DeliverRoles(w: World, who: Who, id: nat)
    requires AllSound(w) && Roles(w)
    ensures Roles(Step(w, Deliver(who, id)))
  {
    PairPolite(w);
  }

  predicate SmallTask(t: Task) { t.MakeOffer? || t.SendOffer? || t.TakeAnswer? }

  predicate LargeTask(t: Task) { t.TakeOffer? || t.MakeAnswer? || t.SendAnswer? }

  predicate RightBox(w: World) {
    forall i | 0 <= i < |w.box| && w.box[i].secret == w.small.secret ::
      && (w.box[i].kind == Offer ==> w.box[i].from == w.small.me && w.box[i].to == w.large.me)
      && (w.box[i].kind == Answer ==> w.box[i].from == w.large.me && w.box[i].to == w.small.me)
  }

  lemma GoSmall(s: Side, i: nat)
    requires Sound(s) && i < |s.tasks| && forall j | 0 <= j < |s.tasks| :: SmallTask(s.tasks[j])
    ensures var o := Continued(s, i);
            && (forall j | 0 <= j < |o.side.tasks| :: SmallTask(o.side.tasks[j])) && o.push != Some(Answer)
  {}

  lemma GoLarge(s: Side, i: nat)
    requires Sound(s) && i < |s.tasks| && forall j | 0 <= j < |s.tasks| :: LargeTask(s.tasks[j])
    ensures var o := Continued(s, i);
            && (forall j | 0 <= j < |o.side.tasks| :: LargeTask(o.side.tasks[j])) && o.push != Some(Offer)
  {}

  lemma GoRoles(w: World, who: Who, i: nat)
    requires AllSound(w) && Roles(w)
    ensures Roles(Step(w, Go(who, i)))
  {
    if i < |SideOf(w, who).tasks| {
      if who == Small {
        GoSmall(w.small, i);
      } else {
        GoLarge(w.large, i);
      }
    }
  }

  lemma StepRoles(w: World, e: Event)
    requires AllSound(w) && Roles(w)
    ensures Roles(Step(w, e))
  {
    PairPolite(w);
    match e
    case Deliver(who, id) => DeliverRoles(w, who, id);
    case Go(who, i) => GoRoles(w, who, i);
    case _ =>
  }

  lemma {:induction false} RunRoles(small: string, large: string, secret: string, events: seq<Event>)
    requires Less(small, large)
    ensures Roles(Run(small, large, secret, events))
    decreases |events|
  {
    if events != [] {
      RunRoles(small, large, secret, events[..|events| - 1]);
      StepRoles(Run(small, large, secret, events[..|events| - 1]), events[|events| - 1]);
    }
  }

  /** Main result: in every interleaving, also with connections closed and made again, no offer is ever refused. */
  lemma NeverRefused(small: string, large: string, secret: string, events: seq<Event>, who: Who, id: nat)
    requires Less(small, large)
    ensures var w := Run(small, large, secret, events);
            id < |w.box| && w.box[id].to == SideOf(w, who).me ==> !Refuses(SideOf(w, who), id, w.box[id])
  {
    var w := Run(small, large, secret, events);
    RunRoles(small, large, secret, events);
    PairPolite(w);
  }

  // ---------------------------------------------------------------- while neither side closes

  /** How far the one exchange has come; `offer` and `answer` are the places of its signals in the box. */
  datatype Phase =
    | Idle
    | Making
    | Sending
    | Offered(offer: nat)
    | Taking(offer: nat)
    | Answering(offer: nat)
    | Replying(offer: nat)
    | Answered(offer: nat, answer: nat)
    | Accepting(offer: nat, answer: nat)
    | Done(offer: nat, answer: nat)

  predicate HasOffer(p: Phase) { !p.Idle? && !p.Making? && !p.Sending? }

  predicate HasAnswer(p: Phase) { p.Answered? || p.Accepting? || p.Done? }

  /** The record and the tasks of the smaller id. */
  predicate SmallIn(s: Side, p: Phase) {
    match p
    case Idle => s.current == None && s.records == [] && s.tasks == []
    case Making => s.current == Some(0) && s.records == [Record(Stable, true)] && s.tasks == [MakeOffer(0)]
    case Sending => s.current == Some(0) && s.records == [Record(HaveLocalOffer, true)] && s.tasks == [SendOffer(0)]
    case Accepting(_, _) =>
      s.current == Some(0) && s.records == [Record(HaveLocalOffer, false)] && s.tasks == [TakeAnswer(0)]
    case Done(_, _) => s.current == Some(0) && s.records == [Record(Stable, false)] && s.tasks == []
    case _ => s.current == Some(0) && s.records == [Record(HaveLocalOffer, false)] && s.tasks == []
  }

  /** The record and the tasks of the larger id, which may not know of the other before the offer. */
  predicate LargeIn(s: Side, p: Phase) {
    if s.current == None then s.records == [] && s.tasks == [] && (HasOffer(p) ==> p.Offered?)
    else
      && s.current == Some(0)
      && s.records == [Record(if p.Answering? then HaveRemoteOffer else Stable, false)]
      && s.tasks == match p {
           case Taking(_) => [TakeOffer(0)]
           case Answering(_) => [MakeAnswer(0)]
           case Replying(_) => [SendAnswer(0)]
           case _ => []
         }
  }

  /** The places of the signals of one kind that have the room's secret. */
  predicate Sent(box: seq<Signal>, secret: string, kind: Kind, i: nat) {
    i < |box| && box[i].secret == secret && box[i].kind == kind
  }

  ghost predicate BoxIn(box: seq<Signal>, secret: string, p: Phase) {
    && (forall i: nat :: Sent(box, secret, Offer, i) <==> HasOffer(p) && i == p.offer)
    && (forall i: nat :: Sent(box, secret, Answer, i) <==> HasAnswer(p) && i == p.answer)
  }

  /** Which of the two signals have been seen, and that nothing is seen before it is sent. */
  predicate SeenIn(w: World, p: Phase) {
    && (forall i | i in w.small.processed :: i < |w.box|) && (forall i | i in w.large.processed :: i < |w.box|)
    && (HasOffer(p) ==> (p.offer in w.large.processed <==> !p.Offered?))
    && (HasAnswer(p) ==> (p.answer in w.small.processed <==> !p.Answered?))
  }

  ghost predicate At(w: World, p: Phase) {
    Roles(w) && SmallIn(w.small, p) && LargeIn(w.large, p) && BoxIn(w.box, w.small.secret, p) && SeenIn(w, p)
  }

  /** A signal that is neither of the two leaves the phase as it is. */
  lemma OtherPushed(box: seq<Signal>, secret: string, p: Phase, signal: Signal)
    requires BoxIn(box, secret, p) && (signal.secret == secret ==> signal.kind == Ice)
    ensures BoxIn(box + [signal], secret, p)
  {
    forall i: nat, kind | kind != Ice ensures Sent(box + [signal], secret, kind, i) <==> Sent(box, secret, kind, i) {}
  }

  lemma OfferPushed(box: seq<Signal>, secret: string, signal: Signal)
    requires BoxIn(box, secret, Sending) && signal.secret == secret && signal.kind == Offer
    ensures BoxIn(box + [signal], secret, Offered(|box|))
  {
    forall i: nat ensures Sent(box + [signal], secret, Answer, i) <==> Sent(box, secret, Answer, i) {}
    forall i: nat | Sent(box + [signal], secret, Offer, i) ensures i == |box| {
      assert i < |box| ==> Sent(box, secret, Offer, i);
    }
  }

  lemma AnswerPushed(box: seq<Signal>, secret: string, o: nat, signal: Signal)
    requires BoxIn(box, secret, Replying(o)) && signal.secret == secret && signal.kind == Answer
    ensures BoxIn(box + [signal], secret, Answered(o, |box|))
  {
    forall i: nat ensures Sent(box + [signal], secret, Offer, i) <==> Sent(box, secret, Offer, i) {}
    forall i: nat | Sent(box + [signal], secret, Answer, i) ensures i == |box| {
      assert i < |box| ==> Sent(box, secret, Answer, i);
    }
  }

  lemma StepSmall(w: World, p: Phase, id: nat) returns (q: Phase)
    requires AllSound(w) && At(w, p)
    ensures At(Step(w, Deliver(Small, id)), q)
  {
    PairPolite(w);
    DeliverRoles(w, Small, id);
    assert HasAnswer(p) ==> Sent(w.box, w.small.secret, Answer, p.answer);
    q := p;
    if id < |w.box| && w.box[id].to == w.small.me && id !in w.small.processed && w.box[id].from != w.small.me
      && w.box[id].secret == w.small.secret {
      if w.box[id].kind == Answer {
        assert Sent(w.box, w.small.secret, Answer, id);
        q := Accepting(p.offer, p.answer);
      } else if p == Idle {
        q := Making;
      }
    }
  }

  lemma StepLarge(w: World, p: Phase, id: nat) returns (q: Phase)
    requires AllSound(w) && At(w, p)
    ensures At(Step(w, Deliver(Large, id)), q)
  {
    PairPolite(w);
    DeliverRoles(w, Large, id);
    assert HasOffer(p) ==> Sent(w.box, w.small.secret, Offer, p.offer);
    q := p;
    if id < |w.box| && w.box[id].to == w.large.me && id !in w.large.processed && w.box[id].from != w.large.me
      && w.box[id].secret == w.small.secret && w.box[id].kind == Offer {
      assert Sent(w.box, w.small.secret, Offer, id);
      q := Taking(p.offer);
    }
  }

  lemma GoSmallPhase(w: World, p: Phase, i: nat) returns (q: Phase)
    requires AllSound(w) && At(w, p) && i < |w.small.tasks|
    ensures At(Step(w, Go(Small, i)), q) && !Continued(w.small, i).failed
  {
    GoRoles(w, Small, i);
    match p
    case Making => q := Sending;
    case Sending =>
      q := Offered(|w.box|);
      OfferPushed(w.box, w.small.secret, Signal(w.small.me, w.small.other, w.small.secret, Offer));
    case Accepting(o, n) => q := Done(o, n);
  }

  lemma GoLargePhase(w: World, p: Phase, i: nat) returns (q: Phase)
    requires AllSound(w) && At(w, p) && i < |w.large.tasks|
    ensures At(Step(w, Go(Large, i)), q) && !Continued(w.large, i).failed
  {
    GoRoles(w, Large, i);
    match p
    case Taking(o) => q := Answering(o);
    case Answering(o) => q := Replying(o);
    case Replying(o) =>
      q := Answered(o, |w.box|);
      AnswerPushed(w.box, w.small.secret, o, Signal(w.large.me, w.large.other, w.large.secret, Answer));
  }

  lemma StepPhase(w: World, p: Phase, e: Event) returns (q: Phase)
    requires AllSound(w) && At(w, p) && !e.Close?
    ensures At(Step(w, e), q)
  {
    q := p;
    StepRoles(w, e);
    match e
    case Discover(who) =>
      PairPolite(w);
      if who == Small && p == Idle {
        q := Making;
      }
    case Deliver(who, id) =>
      if who == Small {
        q := StepSmall(w, p, id);
      } else {
        q := StepLarge(w, p, id);
      }
    case Go(who, i) =>
      if i < |SideOf(w, who).tasks| {
        if who == Small {
          q := GoSmallPhase(w, p, i);
        } else {
          q := GoLargePhase(w, p, i);
        }
      }
    case Candidate(who) =>
      var s := SideOf(w, who);
      OtherPushed(w.box, w.small.secret, p, Signal(s.me, s.other, s.secret, Ice));
    case Foreign(signal) =>
      if signal.secret != w.small.secret {
        OtherPushed(w.box, w.small.secret, p, signal);
      }
  }

  predicate NoClose(events: seq<Event>) { forall i | 0 <= i < |events| :: !events[i].Close? }

  /** While neither side closes, every interleaving is in one of the phases. */
  lemma {:induction false} RunPhase(small: string, large: string, secret: string, events: seq<Event>) returns (p: Phase)
    requires Less(small, large) && NoClose(events)
    ensures At(Run(small, large, secret, events), p)
    decreases |events|
  {
    if events == [] {
      p := Idle;
    } else {
      var q := RunPhase(small, large, secret, events[..|events| - 1]);
      p := StepPhase(Run(small, large, secret, events[..|events| - 1]), q, events[|events| - 1]);
    }
  }

  /** Main result: while neither side closes, one offer at most is sent, and one answer at most, after it. */
  lemma OneExchange(small: string, large: string, secret: string, events: seq<Event>, i: nat, j: nat)
    requires Less(small, large) && NoClose(events)
    ensures var box := Run(small, large, secret, events).box;
            && (Sent(box, secret, Offer, i) && Sent(box, secret, Offer, j) ==> i == j)
            && (Sent(box, secret, Answer, i) && Sent(box, secret, Answer, j) ==> i == j)
            && (Sent(box, secret, Answer, i) ==> exists k :: Sent(box, secret, Offer, k))
  {
    var p := RunPhase(small, large, secret, events);
    if HasAnswer(p) {
      assert Sent(Run(small, large, secret, events).box, secret, Offer, p.offer);
    }
  }

  /** Main result: while neither side closes, no step fails; so the answer meets the record whose offer waits for it. */
  lemma NothingFails(small: string, large: string, secret: string, events: seq<Event>, who: Who, i: nat)
    requires Less(small, large) && NoClose(events)
    ensures var s := SideOf(Run(small, large, secret, events), who);
            i < |s.tasks| ==>
            && !Continued(s, i).failed
            && (s.tasks[i].TakeAnswer? ==> s.records[s.tasks[i].rec].signaling == HaveLocalOffer)
  {
    var w := Run(small, large, secret, events);
    var p := RunPhase(small, large, secret, events);
    if i < |SideOf(w, who).tasks| {
      if who == Small {
        var _ := GoSmallPhase(w, p, i);
      } else {
        var _ := GoLargePhase(w, p, i);
      }
    }
  }

  /** Nothing is under way, and every signal of the room has been delivered. */
  predicate Quiet(w: World) {
    && w.small.tasks == [] && w.large.tasks == []
    && forall i | 0 <= i < |w.box| && w.box[i].secret == w.small.secret ::
         i in if w.box[i].to == w.small.me then w.small.processed else w.large.processed
  }

  /** Main result: when all is quiet, and the smaller id knows of the other, the exchange is complete on both sides. */
  lemma QuietIsDone(small: string, large: string, secret: string, events: seq<Event>)
    requires Less(small, large) && NoClose(events)
    requires Quiet(Run(small, large, secret, events)) && Run(small, large, secret, events).small.current.Some?
    ensures var w := Run(small, large, secret, events);
            && w.small.records == [Record(Stable, false)] && w.large.records == [Record(Stable, false)]
            && (exists i :: Sent(w.box, secret, Offer, i)) && (exists i :: Sent(w.box, secret, Answer, i))
  {
    var w := Run(small, large, secret, events);
    var p := RunPhase(small, large, secret, events);
    PairPolite(w);
    if HasOffer(p) {
      assert Sent(w.box, secret, Offer, p.offer);
    }
    if HasAnswer(p) {
      assert Sent(w.box, secret, Answer, p.answer);
    }
  }

  /**
   Closing does break it: the smaller id closes after its offer was answered
   and finds the other again, and the late answer meets a new record, where
   the browser refuses it.
   */
  lemma LateAnswer(w: World, offer: nat, answer: nat)
    requires AllSound(w) && At(w, Answered(offer, answer))
    ensures var v := Step(Step(Step(w, Close(Small)), Discover(Small)), Deliver(Small, answer));
            v.small.tasks == [MakeOffer(1), TakeAnswer(1)] && Continued(v.small, 1).failed
  {
    PairPolite(w);
    assert Sent(w.box, w.small.secret, Answer, answer);
    var closed := Step(w, Close(Small));
    assert closed.small.records == [Record(Closed, false)] && closed.small.tasks == [];
    var again := Step(closed, Discover(Small));
    assert again.small.records == [Record(Closed, false), Record(Stable, true)];
    assert again.small.tasks == [MakeOffer(1)];
  }
}
