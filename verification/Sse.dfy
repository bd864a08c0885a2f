/**
 The streaming reader of server-sent events in the AI console
 (admin-ui/public/ai-console.js, `readSse`), and the frames that the admin API
 writes (server/admin-api.ts, the `write` of /api/admin/live).

 The reader gets the text in chunks, keeps what has no blank line yet, and
 yields one event for each complete block. The specification speaks of the
 whole text only: the events do not depend on where the chunks were cut.
 The reader splits lines at LF only, as the source does.
 */
module Sse {
  import opened Text

  /** JSON text and its values: an abstract `JSON.parse`. */
  datatype Event<T> = Event(event: string, data: T)

  type Json<T> = string -> Option<T>

  /** A blank line is two line ends in a row. */
  const NL := '\n'

  // ---------------------------------------------------------------- blocks

  /** A text's complete blocks, and what is left after the last one. */
  datatype Cut = Cut(blocks: seq<string>, rest: string)

  function Blocks(s: string): (c: Cut)
    ensures |c.rest| <= |s|
    decreases |s|
  {
    var i := FindDouble(s, NL);
    if i == |s| then Cut([], s)
    else
      var more := Blocks(s[i + 2..]);
      Cut([s[..i]] + more.blocks, more.rest)
  }

  // ---------------------------------------------------------------- one block

  /** What the lines of a block have said so far. */
  datatype Fields = Fields(event: string, data: seq<string>)

  function WithoutSpace(s: string): string { if s != "" && s[0] == ' ' then s[1..] else s }

  function ReadLine(f: Fields, line: string): Fields {
    if StartsWith(line, "event:") then f.(event := Trim(line[6..]))
    else if StartsWith(line, "data:") then f.(data := f.data + [WithoutSpace(line[5..])])
    else f
  }

  function ReadLines(f: Fields, lines: seq<string>): Fields
    decreases |lines|
  {
    if lines == [] then f else ReadLines(ReadLine(f, lines[0]), lines[1..])
  }

  /** The event of a block, if it has data and that is JSON. */
  function BlockEvent<T>(json: Json<T>, block: string): seq<Event<T>> { LinesEvent(json, Split(block, NL)) }

  function LinesEvent<T>(json: Json<T>, lines: seq<string>): seq<Event<T>> {
    var f := ReadLines(Fields("message", []), lines);
    if f.data == [] then []
    else
      match json(Join(f.data, "\n"))
      case None => []
      case Some(v) => [Event(f.event, v)]
  }

  function BlockEvents<T>(json: Json<T>, blocks: seq<string>): seq<Event<T>> {
    if blocks == [] then [] else BlockEvent(json, blocks[0]) + BlockEvents(json, blocks[1..])
  }

  /** The events of a whole text: those of its complete blocks. */
  function Events<T>(json: Json<T>, text: string): seq<Event<T>> { BlockEvents(json, Blocks(text).blocks) }

  // ---------------------------------------------------------------- cutting the text anywhere

  /** More text after a cut: the blocks so far stay, the rest is read on. */
  lemma {:induction false} BlocksAppend(a: string, b: string, whole: string, buf: string)
    requires whole == a + b && buf == Blocks(a).rest + b
    ensures Blocks(whole).blocks == Blocks(a).blocks + Blocks(buf).blocks && Blocks(whole).rest == Blocks(buf).rest
    decreases |a|
  {
    var i := FindDouble(a, NL);
    if i == |a| {
      assert Blocks(a) == Cut([], a);
    } else {
      var c, tail := Blocks(a[i + 2..]), whole[i + 2..];
      DoubleIn(a, NL, b);
      BlocksStep(a, i, c);
      assert tail == a[i + 2..] + b && whole[..i] == a[..i];
      BlocksAppend(a[i + 2..], b, tail, buf);
      BlocksStep(whole, i, Blocks(tail));
      Associative([a[..i]], c.blocks, Blocks(buf).blocks);
    }
  }

  lemma BlocksStep(s: string, i: nat, more: Cut)
    requires i == FindDouble(s, NL) < |s| && more == Blocks(s[i + 2..])
    ensures Blocks(s) == Cut([s[..i]] + more.blocks, more.rest)
  {}

  lemma {:induction false} EventsAppend<T>(json: Json<T>, a: seq<string>, b: seq<string>)
    ensures BlockEvents(json, a + b) == BlockEvents(json, a) + BlockEvents(json, b)
  {
    if a == [] {
      assert a + b == b;
    } else {
      assert (a + b)[1..] == a[1..] + b;
      EventsAppend(json, a[1..], b);
    }
  }

  // ---------------------------------------------------------------- the reader

  /** One block's lines, as the loop reads them. */
  method ReadBlock<T>(json: Json<T>, block: string) returns (yielded: seq<Event<T>>)
    ensures yielded == BlockEvent(json, block)
  {
    var event := "message";
    var lines: seq<string> := [];
    var todo := Split(block, NL);
    ghost var all := ReadLines(Fields(event, lines), todo);
    for k := 0 to |todo|
      invariant all == ReadLines(Fields(event, lines), todo[k..])
    {
      var line := todo[k];
      assert todo[k..][1..] == todo[k + 1..];
      if StartsWith(line, "event:") {
        event := Trim(line[6..]);
      } else if StartsWith(line, "data:") {
        lines := lines + [WithoutSpace(line[5..])];
      }
    }
    if lines == [] {
      return [];
    }
    var data := json(Join(lines, "\n"));
    return if data.Some? then [Event(event, data.value)] else [];
  }

  /** The inner loop: yields the complete blocks of the buffer and keeps the rest. */
  method Drain<T>(json: Json<T>, buffer: string) returns (yielded: seq<Event<T>>, buf: string)
    ensures yielded == BlockEvents(json, Blocks(buffer).blocks) && buf == Blocks(buffer).rest
  {
    ghost var all := BlockEvents(json, Blocks(buffer).blocks);
    yielded, buf := [], buffer;
    assert [] + all == all;
    while FindDouble(buf, NL) < |buf|
      invariant Blocks(buf).rest == Blocks(buffer).rest
      invariant all == yielded + BlockEvents(json, Blocks(buf).blocks)
      decreases |buf|
    {
      var i := FindDouble(buf, NL);
      var events := ReadBlock(json, buf[..i]);
      DrainStep(json, buf, i);
      ghost var rest := BlockEvents(json, Blocks(buf[i + 2..]).blocks);
      assert yielded + (events + rest) == (yielded + events) + rest;
      yielded, buf := yielded + events, buf[i + 2..];
    }
    assert Blocks(buf) == Cut([], buf);
  }

  lemma DrainStep<T>(json: Json<T>, s: string, i: nat)
    requires i == FindDouble(s, NL) < |s|
    ensures Blocks(s).rest == Blocks(s[i + 2..]).rest
    ensures BlockEvents(json, Blocks(s).blocks) ==
            BlockEvent(json, s[..i]) + BlockEvents(json, Blocks(s[i + 2..]).blocks)
  {
    var more := Blocks(s[i + 2..]);
    BlocksStep(s, i, more);
    assert ([s[..i]] + more.blocks)[1..] == more.blocks;
  }

  /** The events of a text and of one more chunk. */
  lemma EventsMore<T>(json: Json<T>, text: string, chunk: string)
    ensures var buf := Blocks(text).rest + chunk;
            && Events(json, text + chunk) == Events(json, text) + Events(json, buf)
            && Blocks(text + chunk).rest == Blocks(buf).rest
  {
    BlocksAppend(text, chunk, text + chunk, Blocks(text).rest + chunk);
    EventsAppend(json, Blocks(text).blocks, Blocks(Blocks(text).rest + chunk).blocks);
  }

  /** The events of the text so far, as a whole. */
  function EventsUpTo<T>(json: Json<T>, chunks: seq<string>, k: nat): seq<Event<T>>
    requires k <= |chunks|
  {
    Events(json, Concat(chunks[..k]))
  }

  /** What the text so far has after its last complete block. */
  function RestUpTo(chunks: seq<string>, k: nat): string
    requires k <= |chunks|
  {
    Blocks(Concat(chunks[..k])).rest
  }

  lemma NextChunk<T>(json: Json<T>, chunks: seq<string>, k: nat)
    requires k < |chunks|
    ensures EventsUpTo(json, chunks, k + 1) ==
            EventsUpTo(json, chunks, k) + Events(json, RestUpTo(chunks, k) + chunks[k])
    ensures RestUpTo(chunks, k + 1) == Blocks(RestUpTo(chunks, k) + chunks[k]).rest
  {
    ConcatLast(chunks, k);
    EventsMore(json, Concat(chunks[..k]), chunks[k]);
  }

  /**
   The reader's loop over the chunks. Main result: what it has yielded after
   each chunk, and at the end, is what the text so far holds as a whole.
   */
  method ReadSse<T>(json: Json<T>, chunks: seq<string>) returns (yielded: seq<Event<T>>, after: seq<seq<Event<T>>>)
    ensures yielded == Events(json, Concat(chunks))
    ensures |after| == |chunks|
    ensures forall k | 0 <= k < |chunks| :: after[k] == EventsUpTo(json, chunks, k + 1)
  {
    yielded, after := [], [];
    var buf := "";
    for k := 0 to |chunks|
      invariant buf == RestUpTo(chunks, k)
      invariant yielded == EventsUpTo(json, chunks, k)
      invariant |after| == k && forall j | 0 <= j < k :: after[j] == EventsUpTo(json, chunks, j + 1)
    {
      NextChunk(json, chunks, k);
      buf := buf + chunks[k];
      var events: seq<Event<T>>;
      events, buf := Drain(json, buf);
      yielded := yielded + events;
      after := after + [yielded];
    }
    assert chunks[..|chunks|] == chunks;
  }

  lemma ConcatLast(chunks: seq<string>, k: nat)
    requires k < |chunks|
    ensures Concat(chunks[..k + 1]) == Concat(chunks[..k]) + chunks[k]
  {
    assert chunks[..k + 1] == chunks[..k] + [chunks[k]];
    ConcatAppend(chunks[..k], [chunks[k]]);
    assert Concat([chunks[k]]) == chunks[k] + Concat([]);
  }

  // ---------------------------------------------------------------- what a block of lines says

  /** The lines of a block by what they are for; a field's value has one blank before it or none. */
  datatype Line = EventName(name: string, spaced: bool) | DataText(text: string, spaced: bool) | Ignored(text: string)

  function LineText(l: Line): string {
    match l
    case EventName(name, spaced) => (if spaced then "event: " else "event:") + name
    case DataText(text, spaced) => (if spaced then "data: " else "data:") + text
    case Ignored(text) => text
  }

  /**
   An event name without blanks around it, a value that keeps its own first blank
   only after another, and lines of neither kind.
   */
  predicate GoodLine(l: Line) {
    match l
    case EventName(name, _) => Trimmed(name)
    case DataText(text, spaced) => spaced || !(" " <= text)
    case Ignored(text) => !("event:" <= text) && !("data:" <= text)
  }

  /** The name given last; "message" when none is. */
  function NameOf(lines: seq<Line>): string {
    if lines == [] then "message"
    else
      match lines[|lines| - 1]
      case EventName(name, _) => name
      case _ => NameOf(lines[..|lines| - 1])
  }

  function TextsOf(lines: seq<Line>): seq<string> {
    if lines == [] then []
    else TextsOf(lines[..|lines| - 1]) + match lines[|lines| - 1] { case DataText(text, _) => [text] case _ => [] }
  }

  function LineTexts(lines: seq<Line>): seq<string> {
    seq(|lines|, i requires 0 <= i < |lines| => LineText(lines[i]))
  }

  lemma {:induction false} ReadMore(f: Fields, lines: seq<string>, last: string)
    ensures ReadLines(f, lines + [last]) == ReadLine(ReadLines(f, lines), last)
    decreases |lines|
  {
    if lines == [] {
      assert [last][1..] == [] && ReadLines(ReadLine(f, last), []) == ReadLine(f, last);
    } else {
      assert (lines + [last])[1..] == lines[1..] + [last];
      ReadMore(ReadLine(f, lines[0]), lines[1..], last);
    }
  }

  lemma LineRead(f: Fields, l: Line)
    requires GoodLine(l)
    ensures ReadLine(f, LineText(l)) ==
            match l
            case EventName(name, _) => f.(event := name)
            case DataText(text, _) => f.(data := f.data + [text])
            case Ignored(_) => f
  {
    var t := LineText(l);
    match l
    case EventName(name, spaced) =>
      assert "event:" <= t && t[6..] == if spaced then " " + name else name;
      TrimPadded(" ", name, "");
      TrimmedStays(name);
      assert " " + name + "" == " " + name;
    case DataText(text, spaced) =>
      assert t[0] == 'd' && "event:"[0] == 'e';
      assert "data:" <= t && t[5..] == if spaced then " " + text else text;
      assert (" " + text)[1..] == text;
      assert text != "" && text[0] == ' ' ==> " " <= text;
    case Ignored(_) =>
  }

  lemma {:induction false} LinesRead(lines: seq<Line>)
    requires forall i | 0 <= i < |lines| :: GoodLine(lines[i])
    ensures ReadLines(Fields("message", []), LineTexts(lines)) == Fields(NameOf(lines), TextsOf(lines))
    decreases |lines|
  {
    if lines != [] {
      var front, last := lines[..|lines| - 1], lines[|lines| - 1];
      LinesRead(front);
      assert LineTexts(lines) == LineTexts(front) + [LineText(last)];
      ReadMore(Fields("message", []), LineTexts(front), LineText(last));
      LineRead(Fields(NameOf(front), TextsOf(front)), last);
    }
  }

  /**
   Main result: a block of lines makes one event, of the name given last or
   "message", with the value of its data lines joined by line ends; and none
   when it has no data line, or when that is not JSON.
   */
  lemma BlockSays<T>(json: Json<T>, lines: seq<Line>)
    requires lines != [] && forall i | 0 <= i < |lines| :: GoodLine(lines[i]) && NL !in LineText(lines[i])
    ensures var data := Join(TextsOf(lines), "\n");
            BlockEvent(json, Join(LineTexts(lines), "\n")) ==
            if TextsOf(lines) == [] || json(data).None? then [] else [Event(NameOf(lines), json(data).value)]
  {
    SplitJoin(LineTexts(lines), NL);
    assert "\n" == [NL];
    LinesRead(lines);
  }

  // ---------------------------------------------------------------- the writer's frames

  /** What the live stream writes: an event with its data as JSON text, or a keep-alive comment. */
  datatype Frame<T> = Sent(event: string, data: T) | KeepAlive

  /** `JSON.stringify`: text without raw line ends that `JSON.parse` reads back. */
  ghost predicate Stringifies<T(!new)>(text: T -> string, json: Json<T>) {
    forall v :: NL !in text(v) && json(text(v)) == Some(v)
  }

  /** An event name that the reader gives back as it is. */
  predicate GoodName(event: string) { NL !in event && Trimmed(event) }

  function FrameLines<T>(text: T -> string, f: Frame<T>): seq<string> {
    match f
    case Sent(event, data) => ["event: " + event, "data: " + text(data)]
    case KeepAlive => [": keep-alive"]
  }

  function FrameText<T>(text: T -> string, f: Frame<T>): string { Join(FrameLines(text, f), "\n") + "\n\n" }

  function StreamText<T>(text: T -> string, fs: seq<Frame<T>>): string {
    if fs == [] then "" else FrameText(text, fs[0]) + StreamText(text, fs[1..])
  }

  /** The events that were sent, in order. */
  function SentEvents<T>(fs: seq<Frame<T>>): seq<Event<T>> {
    if fs == [] then []
    else (match fs[0] case Sent(e, d) => [Event(e, d)] case KeepAlive => []) + SentEvents(fs[1..])
  }

  lemma {:induction false} BlockFirst<T>(json: Json<T>, lines: seq<string>, rest: string)
    requires lines != [] && FullParts(lines, NL)
    ensures Events(json, Join(lines, "\n") + "\n\n" + rest) == LinesEvent(json, lines) + Events(json, rest)
  {
    var block := Join(lines, "\n");
    var s := block + "\n\n" + rest;
    JoinNoDouble(lines, NL);
    SplitJoin(lines, NL);
    DoubleAfter(block, NL, rest);
    assert s == block + [NL, NL] + rest;
    assert s[..|block|] == block && s[|block| + 2..] == rest;
    DrainStep(json, s, |block|);
  }

  lemma {:induction false} SentBack<T>(json: Json<T>, event: string, data: string, v: T)
    requires GoodName(event) && json(data) == Some(v)
    ensures LinesEvent(json, ["event: " + event, "data: " + data]) == [Event(event, v)]
  {
    var a, b := "event: " + event, "data: " + data;
    var f := Fields("message", []);
    EventLine(f, event);
    DataLine(Fields(event, []), data);
    assert [] + [data] == [data];
    assert [a, b][1..] == [b] && [b][1..] == [];
    assert ReadLines(f, [a, b]) == ReadLines(Fields(event, []), [b]) == ReadLines(Fields(event, [data]), []);
  }

  lemma EventLine(f: Fields, event: string)
    requires Trimmed(event)
    ensures ReadLine(f, "event: " + event) == f.(event := event)
  {
    var a := "event: " + event;
    assert "event:" <= a;
    assert a[6..] == " " + event && (" " + event)[1..] == event;
    TrimmedStays(event);
  }

  lemma DataLine(f: Fields, data: string)
    ensures ReadLine(f, "data: " + data) == f.(data := f.data + [data])
  {
    var b := "data: " + data;
    assert "data:" <= b && b[0] == 'd' && "event:"[0] == 'e';
    assert b[5..] == " " + data && (" " + data)[1..] == data;
  }

  lemma KeepAliveBack<T>(json: Json<T>)
    ensures LinesEvent(json, [": keep-alive"]) == []
  {
    var s := ": keep-alive";
    var lines: seq<string> := [s];
    assert lines[1..] == [];
    assert s[0] == ':' && "event:"[0] == 'e' && "data:"[0] == 'd';
    assert ReadLines(Fields("message", []), lines) == ReadLines(Fields("message", []), []);
  }

  lemma {:induction false} FrameBack<T(!new)>(text: T -> string, json: Json<T>, f: Frame<T>, rest: string)
    requires Stringifies(text, json) && (f.Sent? ==> GoodName(f.event))
    ensures Events(json, FrameText(text, f) + rest) == SentEvents([f]) + Events(json, rest)
  {
    FrameIsFull(text, json, f);
    BlockFirst(json, FrameLines(text, f), rest);
    FrameEvent(text, json, f);
  }

  lemma FrameIsFull<T(!new)>(text: T -> string, json: Json<T>, f: Frame<T>)
    requires Stringifies(text, json) && (f.Sent? ==> GoodName(f.event))
    ensures FullParts(FrameLines(text, f), NL)
  {}

  lemma FrameEvent<T(!new)>(text: T -> string, json: Json<T>, f: Frame<T>)
    requires Stringifies(text, json) && (f.Sent? ==> GoodName(f.event))
    ensures LinesEvent(json, FrameLines(text, f)) == SentEvents([f])
  {
    assert [f][1..] == [];
    match f
    case Sent(event, data) => SentBack(json, event, text(data), data);
    case KeepAlive => KeepAliveBack(json);
  }

  lemma SentFirst<T>(fs: seq<Frame<T>>)
    requires fs != []
    ensures SentEvents(fs) == SentEvents([fs[0]]) + SentEvents(fs[1..])
  {
    assert [fs[0]][1..] == [];
  }

  /** The stream's events are those sent, in order. */
  lemma {:induction false} StreamBack<T(!new)>(text: T -> string, json: Json<T>, fs: seq<Frame<T>>)
    requires Stringifies(text, json) && forall i | 0 <= i < |fs| :: fs[i].Sent? ==> GoodName(fs[i].event)
    ensures Events(json, StreamText(text, fs)) == SentEvents(fs)
  {
    if fs == [] {
      assert Blocks("") == Cut([], "");
    } else {
      FrameBack(text, json, fs[0], StreamText(text, fs[1..]));
      StreamBack(text, json, fs[1..]);
      SentFirst(fs);
    }
  }

  /** The frames that are whole in the first `n` characters of the stream. */
  function Arrived<T>(text: T -> string, fs: seq<Frame<T>>, n: nat): seq<Frame<T>> {
    if fs == [] || n < |FrameText(text, fs[0])| then []
    else [fs[0]] + Arrived(text, fs[1..], n - |FrameText(text, fs[0])|)
  }

  lemma NoBlockYet(block: string, part: string)
    requires FindDouble(block, NL) == |block| && (block != "" ==> block[|block| - 1] != NL)
    requires part <= block + [NL, NL] && |part| < |block| + 2
    ensures Blocks(part) == Cut([], part)
  {
    var s := block + [NL, NL];
    var rest := s[|part|..];
    DoubleAfter(block, NL, "");
    assert s + "" == s && part + rest == s;
    if FindDouble(part, NL) < |part| {
      DoubleIn(part, NL, rest);
    }
  }

  /** Of a frame that is not whole yet nothing can be read. */
  lemma PartOfFrame<T(!new)>(text: T -> string, json: Json<T>, f: Frame<T>, part: string)
    requires Stringifies(text, json) && (f.Sent? ==> GoodName(f.event))
    requires part <= FrameText(text, f) && |part| < |FrameText(text, f)|
    ensures Events(json, part) == []
  {
    var lines := FrameLines(text, f);
    FrameIsFull(text, json, f);
    JoinNoDouble(lines, NL);
    NoBlockYet(Join(lines, "\n"), part);
  }

  /** A stream's beginning has just the events of the frames that are whole in it. */
  lemma {:induction false} PrefixBack<T(!new)>(text: T -> string, json: Json<T>, fs: seq<Frame<T>>, sofar: string)
    requires Stringifies(text, json) && forall i | 0 <= i < |fs| :: fs[i].Sent? ==> GoodName(fs[i].event)
    requires sofar <= StreamText(text, fs)
    ensures Events(json, sofar) == SentEvents(Arrived(text, fs, |sofar|))
    decreases |fs|
  {
    if fs == [] {
      assert Blocks("") == Cut([], "");
    } else {
      var first := FrameText(text, fs[0]);
      if |sofar| < |first| {
        PartOfFrame(text, json, fs[0], sofar);
      } else {
        var more := sofar[|first|..];
        assert sofar == first + more;
        FrameBack(text, json, fs[0], more);
        PrefixBack(text, json, fs[1..], more);
        SentFirst(Arrived(text, fs, |sofar|));
      }
    }
  }

  /** In the end all frames have arrived. */
  lemma {:induction false} AllArrived<T>(text: T -> string, fs: seq<Frame<T>>)
    ensures Arrived(text, fs, |StreamText(text, fs)|) == fs
  {
    if fs != [] {
      AllArrived(text, fs[1..]);
    }
  }

  lemma {:induction false} ConcatPrefix(chunks: seq<string>, k: nat)
    requires k <= |chunks|
    ensures Concat(chunks[..k]) <= Concat(chunks)
  {
    assert chunks == chunks[..k] + chunks[k..];
    ConcatAppend(chunks[..k], chunks[k..]);
  }

  /**
   Main result: frames as the admin API writes them, with keep-alive comments
   between, come back in order however the network cuts the text: after each
   chunk the reader has yielded just the events of the frames that are whole by then.
   */
  method ChunksBack<T(!new)>(text: T -> string, json: Json<T>, ghost fs: seq<Frame<T>>, chunks: seq<string>)
    returns (yielded: seq<Event<T>>, after: seq<seq<Event<T>>>)
    requires Stringifies(text, json) && forall i | 0 <= i < |fs| :: fs[i].Sent? ==> GoodName(fs[i].event)
    requires Concat(chunks) == StreamText(text, fs)
    ensures yielded == SentEvents(fs) && |after| == |chunks|
    ensures Arrived(text, fs, |Concat(chunks)|) == fs
    ensures forall k | 0 <= k < |chunks| :: after[k] == SentEvents(Arrived(text, fs, |Concat(chunks[..k + 1])|))
  {
    yielded, after := ReadSse(json, chunks);
    StreamBack(text, json, fs);
    AllArrived(text, fs);
    forall k | 0 <= k < |chunks| ensures after[k] == SentEvents(Arrived(text, fs, |Concat(chunks[..k + 1])|)) {
      ArrivedUpTo(text, json, fs, chunks, k + 1);
    }
  }

  lemma ArrivedUpTo<T(!new)>(text: T -> string, json: Json<T>, fs: seq<Frame<T>>, chunks: seq<string>, k: nat)
    requires Stringifies(text, json) && forall i | 0 <= i < |fs| :: fs[i].Sent? ==> GoodName(fs[i].event)
    requires Concat(chunks) == StreamText(text, fs) && k <= |chunks|
    ensures EventsUpTo(json, chunks, k) == SentEvents(Arrived(text, fs, |Concat(chunks[..k])|))
  {
    ConcatPrefix(chunks, k);
    PrefixBack(text, json, fs, Concat(chunks[..k]));
  }
}
