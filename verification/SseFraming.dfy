/** The event-stream reader of frontend/lib/api/advisor.ts (a subset of section 9.2 of the
    WHATWG HTML Standard): chunks of text are appended to a buffer, complete frames are cut
    off at each blank line, and the payload of every "data: " line is handed on. */
module SseFraming {
  import opened Common
  import opened JsText

  const PREFIX := "data: "

  // ---------------------------------------------------------------- splitting

  /** `text.split("\n\n")`: separators are taken from the left and do not overlap. */
  function Split(text: string): (parts: seq<string>)
    ensures parts != []
  {
    if |text| < 2 then [text]
    else if text[0] == '\n' && text[1] == '\n' then [""] + Split(text[2..])
    else Pushed(text[0], Split(text[1..]))
  }

  /** One more character at the front of the first part. */
  function Pushed(c: char, parts: seq<string>): (r: seq<string>)
    requires parts != []
    ensures |r| == |parts|
  {
    [[c] + parts[0]] + parts[1..]
  }

  function Join(parts: seq<string>): string
    requires parts != []
  {
    if |parts| == 1 then parts[0] else parts[0] + "\n\n" + Join(parts[1..])
  }

  predicate HasBlankLine(text: string) {
    |text| >= 2 && ((text[0] == '\n' && text[1] == '\n') || HasBlankLine(text[1..]))
  }

  /** Cut at the leftmost separators: none starts inside a part, nor at the last character of
      a part that a separator follows. */
  predicate CutLeftmost(parts: seq<string>)
    requires parts != []
  {
    if |parts| == 1 then !HasBlankLine(parts[0])
    else !HasBlankLine(parts[0] + "\n") && CutLeftmost(parts[1..])
  }

  lemma HeadOfJoin(parts: seq<string>)
    requires parts != []
    ensures (if |parts| == 1 then parts[0] else parts[0] + "\n") <= Join(parts)
  {
    if |parts| > 1 {
      assert Join(parts) == (parts[0] + "\n") + ("\n" + Join(parts[1..]));
    }
  }

  lemma PushCharOnLast(c: char, part: string)
    requires !HasBlankLine(part) && !(c == '\n' && part != "" && part[0] == '\n')
    ensures !HasBlankLine([c] + part)
  {
    assert ([c] + part)[1..] == part;
  }

  lemma PushChar(c: char, parts: seq<string>)
    requires parts != [] && CutLeftmost(parts)
    requires Join(parts) != "" && !(c == '\n' && Join(parts)[0] == '\n')
    ensures Join(Pushed(c, parts)) == [c] + Join(parts)
    ensures CutLeftmost(Pushed(c, parts))
  {
    HeadOfJoin(parts);
    if |parts| > 1 {
      PushCharOnMany(c, parts[0], parts[1..]);
      assert parts == [parts[0]] + parts[1..];
    } else {
      PushCharOnLast(c, parts[0]);
    }
  }

  lemma PushCharOnMany(c: char, head: string, rest: seq<string>)
    requires rest != [] && CutLeftmost(rest) && !HasBlankLine(head + "\n")
    requires !(c == '\n' && (head + "\n")[0] == '\n')
    ensures Join([[c] + head] + rest) == [c] + Join([head] + rest)
    ensures CutLeftmost([[c] + head] + rest)
  {
    PushCharOnLast(c, head + "\n");
    assert ([c] + head) + "\n" == [c] + (head + "\n");
    var longer := [[c] + head] + rest;
    assert longer[0] == [c] + head && longer[1..] == rest;
    var parts := [head] + rest;
    assert parts[0] == head && parts[1..] == rest;
    assert ([c] + head) + "\n\n" + Join(rest) == [c] + (head + "\n\n" + Join(rest));
  }

  lemma {:induction false} SplitIsLeftmost(text: string)
    ensures Join(Split(text)) == text && CutLeftmost(Split(text))
  {
    if |text| >= 2 {
      if text[0] == '\n' && text[1] == '\n' {
        SplitIsLeftmost(text[2..]);
        assert Split(text)[1..] == Split(text[2..]);
        assert text == "" + "\n\n" + text[2..];
      } else {
        SplitIsLeftmost(text[1..]);
        PushChar(text[0], Split(text[1..]));
        assert text == [text[0]] + text[1..];
      }
    }
  }

  /** Buffering is sound: a cut between `a` and `b`, even inside a separator or a run of
      newlines, changes nothing if what follows the last separator of `a` is kept. */
  lemma {:induction false} SplitOfAppend(a: string, b: string)
    ensures Split(a + b) == Init(Split(a)) + Split(Last(Split(a)) + b)
  {
    if |a| >= 2 {
      if a[0] == '\n' && a[1] == '\n' {
        assert (a + b)[2..] == a[2..] + b;
        SplitOfAppend(a[2..], b);
        assert Init([""] + Split(a[2..])) == [""] + Init(Split(a[2..]));
      } else {
        assert (a + b)[1..] == a[1..] + b;
        SplitOfAppend(a[1..], b);
        var rest := Split(a[1..]);
        if |rest| == 1 {
          SplitIsLeftmost(a[1..]);
          assert a == [a[0]] + a[1..];
          assert Split(a) == [a];
        } else {
          PushedAppend(a[0], rest, Split(Last(rest) + b));
        }
      }
    }
  }

  lemma PushedAppend(c: char, parts: seq<string>, more: seq<string>)
    requires |parts| > 1 && more != []
    ensures Pushed(c, Init(parts) + more) == Init(Pushed(c, parts)) + more
    ensures Last(Pushed(c, parts)) == Last(parts)
  {
    assert (Init(parts) + more)[1..] == Init(parts)[1..] + more;
    assert Init(Pushed(c, parts)) == [[c] + parts[0]] + Init(parts)[1..];
  }

  lemma {:induction false} LastPartHasNoCut(parts: seq<string>)
    requires parts != [] && CutLeftmost(parts)
    ensures !HasBlankLine(Last(parts))
  {
    if |parts| > 1 {
      LastPartHasNoCut(parts[1..]);
    }
  }

  lemma InitOfAppend<T>(a: seq<T>, b: seq<T>)
    requires b != []
    ensures Init(a + b) == a + Init(b) && Last(a + b) == Last(b)
  {
  }

  // ---------------------------------------------------------------- frames and events

  function Payload(part: string): Option<string> {
    var line := Trim(part);
    if PREFIX <= line then Some(line[|PREFIX|..]) else None
  }

  function Payloads(parts: seq<string>): seq<string> {
    if parts == [] then []
    else match Payload(parts[0])
      case Some(p) => [p] + Payloads(parts[1..])
      case None => Payloads(parts[1..])
  }

  lemma {:induction false} PayloadsOfAppend(a: seq<string>, b: seq<string>)
    ensures Payloads(a + b) == Payloads(a) + Payloads(b)
  {
    if a == [] {
      assert a + b == b;
    } else {
      PayloadsOfAppend(a[1..], b);
      assert (a + b)[1..] == a[1..] + b;
    }
  }

  /** What a consumer receives: parsed payloads up to the first one that does not parse,
      which ends the generator with an exception. */
  datatype Delivery<E> = Delivery(events: seq<E>, failed: bool)

  function Deliver<E>(payloads: seq<string>, parse: string -> Option<E>): Delivery<E> {
    if payloads == [] then Delivery([], false)
    else match parse(payloads[0])
      case None => Delivery([], true)
      case Some(e) =>
        var rest := Deliver(payloads[1..], parse);
        Delivery([e] + rest.events, rest.failed)
  }

  lemma {:induction false} DeliverOfAppend<E>(a: seq<string>, b: seq<string>, parse: string -> Option<E>)
    ensures var d := Deliver(a, parse);
            Deliver(a + b, parse) ==
            if d.failed then d else Delivery(d.events + Deliver(b, parse).events, Deliver(b, parse).failed)
  {
    if a == [] {
      assert a + b == b;
    } else {
      DeliverOfAppend(a[1..], b, parse);
      assert (a + b)[0] == a[0] && (a + b)[1..] == a[1..] + b;
      if parse(a[0]).Some? {
        var e, rest, more := parse(a[0]).value, Deliver(a[1..], parse), Deliver(b, parse);
        assert ([e] + rest.events) + more.events == [e] + (rest.events + more.events);
      }
    }
  }

  function Flatten(chunks: seq<string>): string {
    if chunks == [] then "" else Flatten(Init(chunks)) + Last(chunks)
  }

  method HandOn<E>(parts: seq<string>, parse: string -> Option<E>) returns (events: seq<E>, failed: bool)
    ensures Delivery(events, failed) == Deliver(Payloads(parts), parse)
  {
    events, failed := [], false;
    for j := 0 to |parts|
      invariant Delivery(events, false) == Deliver(Payloads(parts[..j]), parse) && !failed
    {
      assert parts[..j + 1] == parts[..j] + [parts[j]];
      PayloadsOfAppend(parts[..j], [parts[j]]);
      assert Payloads([parts[j]]) == match Payload(parts[j]) case Some(p) => [p] case None => [];
      var line := Trim(parts[j]);
      if PREFIX <= line {
        var text := line[|PREFIX|..];
        DeliverOfAppend(Payloads(parts[..j]), [text], parse);
        if parse(text).None? {
          failed := true;
          FailureIsFinal(parts[..j + 1], parts, parse);
          return;
        }
        assert Deliver([text], parse).events == [parse(text).value] + Deliver<E>([], parse).events;
        events := events + [parse(text).value];
      } else {
        assert Payloads(parts[..j + 1]) == Payloads(parts[..j]);
      }
    }
    assert parts[..|parts|] == parts;
  }

  /** Main result, on the loop itself: events and leftover depend on the text alone, not on
      how it was cut. They are those of splitting the whole text once. */
  method StreamChatMessage<E>(chunks: seq<string>, parse: string -> Option<E>)
    returns (events: seq<E>, failed: bool, buffer: string)
    ensures Delivery(events, failed) == Deliver(Payloads(Init(Split(Flatten(chunks)))), parse)
    ensures !failed ==> buffer == Last(Split(Flatten(chunks)))
  {
    events, failed, buffer := [], false, "";
    ghost var done: seq<string> := [];
    for i := 0 to |chunks|
      invariant !failed && done + [buffer] == Split(Flatten(chunks[..i]))
      invariant Delivery(events, false) == Deliver(Payloads(done), parse)
    {
      NextChunk(chunks, i, done, buffer);
      buffer := buffer + chunks[i];
      var parts := Split(buffer);
      buffer := Last(parts);
      parts := Init(parts);
      var more;
      more, failed := HandOn(parts, parse);
      PayloadsOfAppend(done, parts);
      DeliverOfAppend(Payloads(done), Payloads(parts), parse);
      events := events + more;
      if failed {
        LaterChunks(chunks, i + 1);
        FailureIsFinal(done + parts, Init(Split(Flatten(chunks))), parse);
        return;
      }
      done := done + parts;
    }
    assert chunks[..|chunks|] == chunks;
  }

  lemma NextChunk(chunks: seq<string>, i: nat, done: seq<string>, buffer: string)
    requires i < |chunks| && done + [buffer] == Split(Flatten(chunks[..i]))
    ensures var parts := Split(buffer + chunks[i]);
            && (done + Init(parts)) + [Last(parts)] == Split(Flatten(chunks[..i + 1]))
            && done + Init(parts) == Init(Split(Flatten(chunks[..i + 1])))
  {
    assert Init(chunks[..i + 1]) == chunks[..i];
    SplitOfAppend(Flatten(chunks[..i]), chunks[i]);
    var parts := Split(buffer + chunks[i]);
    assert Init(done + [buffer]) == done;
    assert (done + Init(parts)) + [Last(parts)] == done + parts;
  }

  lemma {:induction false} FlattenOfAppend(a: seq<string>, b: seq<string>)
    ensures Flatten(a + b) == Flatten(a) + Flatten(b)
  {
    if b == [] {
      assert a + b == a;
    } else {
      FlattenOfAppend(a, Init(b));
      assert Init(a + b) == a + Init(b);
    }
  }

  lemma {:induction false} LaterChunks(chunks: seq<string>, n: nat)
    requires n <= |chunks|
    ensures Init(Split(Flatten(chunks[..n]))) <= Init(Split(Flatten(chunks)))
  {
    var head, tail := Flatten(chunks[..n]), Flatten(chunks[n..]);
    assert Flatten(chunks) == head + tail by {
      assert chunks == chunks[..n] + chunks[n..];
      FlattenOfAppend(chunks[..n], chunks[n..]);
    }
    LaterText(head, tail);
  }

  lemma {:induction false} LaterText(head: string, tail: string)
    ensures Init(Split(head)) <= Init(Split(head + tail))
  {
    var done, rest := Init(Split(head)), Split(Last(Split(head)) + tail);
    assert Split(head + tail) == done + rest by {
      SplitOfAppend(head, tail);
    }
    assert Init(done + rest) == done + Init(rest) by {
      InitOfAppend(done, rest);
    }
  }

  /** Once a payload fails to parse, later parts cannot change what was delivered. */
  lemma FailureIsFinal<E>(parts: seq<string>, all: seq<string>, parse: string -> Option<E>)
    requires parts <= all && Deliver(Payloads(parts), parse).failed
    ensures Deliver(Payloads(all), parse) == Deliver(Payloads(parts), parse)
  {
    assert all == parts + all[|parts|..];
    PayloadsOfAppend(parts, all[|parts|..]);
    DeliverOfAppend(Payloads(parts), Payloads(all[|parts|..]), parse);
  }

  // ---------------------------------------------------------------- the producer's frames

  /** What the backend writes for one event. */
  function Frame(payload: string): string {
    PREFIX + payload + "\n\n"
  }

  function Frames(payloads: seq<string>): string {
    if payloads == [] then "" else Frame(payloads[0]) + Frames(payloads[1..])
  }

  /** A payload that survives framing: not empty, no blank line inside, no trailing space. */
  ghost predicate Clean(payload: string) {
    payload != "" && !HasBlankLine(payload) && !IsSpace(Last(payload))
  }

  function Weight(payloads: seq<string>): nat {
    if payloads == [] then 0 else |payloads[0]| + 1 + Weight(payloads[1..])
  }

  function TotalLength(parts: seq<string>): nat {
    if parts == [] then 0 else |parts[0]| + TotalLength(parts[1..])
  }

  lemma WeightOfAppend(a: seq<string>, b: seq<string>)
    ensures Weight(a + b) == Weight(a) + Weight(b)
  {
    if a == [] {
      assert a + b == b;
    } else {
      assert (a + b)[1..] == a[1..] + b;
    }
  }

  lemma TrimShortens(s: string)
    ensures |TrimEnd(s)| <= |s| && TrimEnd(s) <= s
    ensures |Trim(s)| <= |s|
  {
    TrimStartShortens(s);
    TrimEndShortens(s);
    TrimEndShortens(TrimStart(s));
  }

  lemma TrimStartShortens(s: string)
    ensures |TrimStart(s)| <= |s|
  {
  }

  lemma TrimEndShortens(s: string)
    ensures |TrimEnd(s)| <= |s| && TrimEnd(s) <= s
  {
  }

  /** Each payload costs its part at least the five characters it does not give back. */
  lemma {:induction false} PayloadsAreLighter(parts: seq<string>)
    ensures Weight(Payloads(parts)) == 0 || Weight(Payloads(parts)) + 5 <= TotalLength(parts)
  {
    if parts != [] {
      PayloadsAreLighter(parts[1..]);
      TrimShortens(parts[0]);
      if Payload(parts[0]).Some? {
        assert Payloads(parts)[1..] == Payloads(parts[1..]);
      }
    }
  }

  lemma {:induction false} JoinLength(parts: seq<string>)
    requires parts != []
    ensures |Join(parts)| == TotalLength(parts) + 2 * (|parts| - 1)
  {
    if |parts| > 1 {
      JoinLength(parts[1..]);
    }
  }

  lemma BodyLine(payload: string)
    ensures TrimStart(PREFIX + payload) == PREFIX + payload
    ensures payload != "" && !IsSpace(Last(payload)) ==> Payload(PREFIX + payload) == Some(payload)
  {
    var body := PREFIX + payload;
    assert body[0] == 'd';
    if payload != "" && !IsSpace(Last(payload)) {
      assert Last(body) == Last(payload);
      assert body[|PREFIX|..] == payload;
    }
  }

  lemma {:induction false} FrameSplit(payload: string)
    ensures var parts := Split(PREFIX + payload);
            var tail := Last(parts);
            Split(Frame(payload)) ==
            Init(parts) + if tail != "" && Last(tail) == '\n' then [Init(tail), "\n"] else [tail, ""]
  {
    var body := PREFIX + payload;
    var tail := Last(Split(body));
    assert Split(Frame(payload)) == Init(Split(body)) + Split(tail + "\n\n") by {
      SplitOfAppend(body, "\n\n");
    }
    assert !HasBlankLine(tail) by {
      SplitIsLeftmost(body);
      LastPartHasNoCut(Split(body));
    }
    TailSplits(tail);
  }

  lemma TwoMore<T>(done: seq<T>, a: T, b: T)
    ensures Init(done + [a, b]) == done + [a] && Last(done + [a, b]) == b
  {
  }

  /** The parts a frame completes, and what it leaves in the buffer. */
  lemma {:induction false} FrameParts(payload: string)
    ensures Init(Split(Frame(payload))) != []
    ensures Last(Split(Frame(payload))) in ["", "\n"]
    ensures Clean(payload) ==> Init(Split(Frame(payload))) == [PREFIX + payload]
  {
    var body := PREFIX + payload;
    var done, tail := Init(Split(body)), Last(Split(body));
    FrameSplit(payload);
    if tail != "" && Last(tail) == '\n' {
      TwoMore(done, Init(tail), "\n");
    } else {
      TwoMore(done, tail, "");
    }
    if Clean(payload) {
      assert Split(body) == [body] by {
        BlankLineAfter(PREFIX, payload);
        NoBlankLineNoCut(body);
      }
      assert Last(body) == Last(payload) != '\n';
      assert done == [] && tail == body;
      assert done + [tail] == [body];
    }
  }

  lemma {:induction false} BlankLineAfter(head: string, tail: string)
    requires '\n' !in head
    ensures HasBlankLine(head + tail) == HasBlankLine(tail)
  {
    if head == "" {
      assert head + tail == tail;
    } else {
      BlankLineAfter(head[1..], tail);
      assert (head + tail)[1..] == head[1..] + tail;
    }
  }

  lemma {:induction false} NoBlankLineNoCut(text: string)
    requires !HasBlankLine(text)
    ensures Split(text) == [text]
  {
    if |text| >= 2 {
      NoBlankLineNoCut(text[1..]);
      assert text == [text[0]] + text[1..];
    }
  }

  lemma {:induction false} TailSplits(tail: string)
    requires !HasBlankLine(tail)
    ensures Split(tail + "\n\n") ==
            if tail != "" && Last(tail) == '\n' then [Init(tail), "\n"] else [tail, ""]
  {
    var text := tail + "\n\n";
    if tail == "" {
      assert text[2..] == "";
    } else if |tail| == 1 && tail[0] == '\n' {
      assert text[2..] == "\n";
      assert Init(tail) == "";
    } else {
      assert text[0] != '\n' || text[1] != '\n';
      TailSplits(tail[1..]);
      assert text[1..] == tail[1..] + "\n\n";
      assert Split(text) == Pushed(tail[0], Split(tail[1..] + "\n\n"));
      assert tail == [tail[0]] + tail[1..];
      if |tail| > 1 && Last(tail) == '\n' {
        assert Init(tail) == [tail[0]] + Init(tail[1..]);
      }
    }
  }

  lemma {:induction false} OneMoreNewline(text: string)
    requires !HasBlankLine(text + "\n")
    ensures !HasBlankLine(text) && (text != "" ==> Last(text) != '\n')
  {
    if |text| > 1 {
      assert (text + "\n")[1..] == text[1..] + "\n";
      OneMoreNewline(text[1..]);
    }
  }

  /** Splitting inverts joining on exactly the lists of parts that are cut leftmost. */
  lemma {:induction false} SplitInvertsJoin(parts: seq<string>)
    requires parts != []
    ensures Split(Join(parts)) == parts <==> CutLeftmost(parts)
  {
    if CutLeftmost(parts) {
      if |parts| == 1 {
        NoBlankLineNoCut(parts[0]);
      } else {
        SplitInvertsJoin(parts[1..]);
        OneMoreNewline(parts[0]);
        TailSplits(parts[0]);
        var rest := Join(parts[1..]);
        SplitOfAppend(parts[0] + "\n\n", rest);
        assert "" + rest == rest;
        assert [parts[0]] + parts[1..] == parts;
      }
    } else {
      SplitIsLeftmost(Join(parts));
    }
  }

  /** A frame's payloads weigh at most what the frame carries, and exactly that only if the
      payload is clean. */
  lemma FrameWeight(payload: string)
    ensures var got := Payloads(Init(Split(Frame(payload))));
            && Weight(got) <= |payload| + 1
            && (Weight(got) == |payload| + 1 ==> Clean(payload))
            && (Clean(payload) ==> got == [payload])
  {
    var body := PREFIX + payload;
    if Clean(payload) {
      FrameParts(payload);
      BodyLine(payload);
      WeightOfOne(body);
      assert [body][1..] == [];
    } else if |Split(body)| > 1 {
      CutFrameWeight(payload);
    } else {
      SplitIsLeftmost(body);
      assert Split(body) == [body];
      UncutText(body);
      BlankLineAfter(PREFIX, payload);
      UncleanLineShrinks(payload);
    }
  }

  lemma CutFrameWeight(payload: string)
    requires |Split(PREFIX + payload)| > 1
    ensures Weight(Payloads(Init(Split(Frame(payload))))) < |payload| + 1
  {
    var body := PREFIX + payload;
    var cut := Split(body);
    SplitIsLeftmost(body);
    LastPartHasNoCut(cut);
    JoinLength(cut);
    SplitOfAppend(body, "\n\n");
    TailSplits(Last(cut));
    var tail := Split(Last(cut) + "\n\n");
    InitOfAppend(Init(cut), tail);
    var parts := Init(cut) + [tail[0]];
    assert Init(Split(Frame(payload))) == parts;
    assert cut == Init(cut) + [Last(cut)];
    TotalOfAppend(Init(cut), tail[0]);
    TotalOfAppend(Init(cut), Last(cut));
    PayloadsAreLighter(parts);
  }

  lemma {:induction false} TotalOfAppend(parts: seq<string>, part: string)
    ensures TotalLength(parts + [part]) == TotalLength(parts) + |part|
  {
    if parts == [] {
      assert parts + [part] == [part];
    } else {
      TotalOfAppend(parts[1..], part);
      assert (parts + [part])[1..] == parts[1..] + [part];
    }
  }

  lemma UncleanLineShrinks(payload: string)
    requires payload == "" || IsSpace(Last(payload))
    requires Split(PREFIX + payload) == [PREFIX + payload]
    ensures Weight(Payloads(Init(Split(Frame(payload))))) < |payload| + 1
  {
    UncutFrame(payload);
    SpaceAtEnd(payload);
    var part := Init(Split(Frame(payload)))[0];
    assert |Trim(part)| < |PREFIX| + |payload|;
    WeightOfOne(part);
  }

  lemma UncutText(text: string)
    requires Split(text) == [text]
    ensures !HasBlankLine(text)
  {
    SplitIsLeftmost(text);
  }

  lemma SpaceAtEnd(payload: string)
    requires payload == "" || IsSpace(Last(payload))
    ensures var body := PREFIX + payload;
            |Trim(body)| < |body| && |Trim(Init(body))| < |body|
  {
    var body := PREFIX + payload;
    assert body[0] == 'd' && Init(body)[0] == 'd';
    assert Last(body) == if payload == "" then ' ' else Last(payload);
    TrimmedPart(body);
    TrimmedPart(Init(body));
  }

  lemma UncutFrame(payload: string)
    requires Split(PREFIX + payload) == [PREFIX + payload]
    ensures var body := PREFIX + payload;
            Init(Split(Frame(payload))) == [if Last(body) == '\n' then Init(body) else body]
  {
    var body := PREFIX + payload;
    SplitOfAppend(body, "\n\n");
    SplitIsLeftmost(body);
    TailSplits(body);
    assert Init([body]) == [];
  }

  lemma TrimmedPart(part: string)
    requires part != "" && part[0] == 'd'
    ensures |Trim(part)| <= |part| && (IsSpace(Last(part)) ==> |Trim(part)| < |part|)
  {
    assert TrimStart(part) == part;
    TrimEndShortens(part);
    TrimEndShortens(Init(part));
  }

  lemma WeightOfOne(part: string)
    ensures Weight(Payloads([part])) == if PREFIX <= Trim(part) then |Trim(part)| - |PREFIX| + 1 else 0
  {
    assert [part][1..] == [];
    if PREFIX <= Trim(part) {
      var p := Trim(part)[|PREFIX|..];
      assert Payloads([part]) == [p];
      assert [p][1..] == [];
    }
  }

  lemma FrameThenRest(payload: string, rest: string)
    requires rest == "" || rest[0] != '\n'
    ensures Payloads(Init(Split(Frame(payload) + rest)))
         == Payloads(Init(Split(Frame(payload)))) + Payloads(Init(Split(rest)))
  {
    var frame := Frame(payload);
    FrameParts(payload);
    SplitOfAppend(frame, rest);
    var left := Last(Split(frame));
    InitOfAppend(Init(Split(frame)), Split(left + rest));
    PayloadsOfAppend(Init(Split(frame)), Init(Split(left + rest)));
    if left == "\n" && rest != "" {
      LeadingNewline(rest);
    } else {
      assert left + rest == left || left + rest == rest;
    }
  }

  /** A newline left over from a run of three is trimmed off the next line. */
  lemma LeadingNewline(rest: string)
    requires rest != "" && rest[0] != '\n'
    ensures Payloads(Init(Split("\n" + rest))) == Payloads(Init(Split(rest)))
  {
    var cut := Split(rest);
    var first := "\n" + cut[0];
    assert ("\n" + rest)[1..] == rest;
    assert Split("\n" + rest) == [first] + cut[1..];
    if |cut| > 1 {
      InitOfAppend([first], cut[1..]);
      InitOfAppend([cut[0]], cut[1..]);
      assert cut == [cut[0]] + cut[1..];
      assert first[1..] == cut[0];
      assert Payload(first) == Payload(cut[0]);
      PayloadsOfAppend([first], Init(cut[1..]));
      PayloadsOfAppend([cut[0]], Init(cut[1..]));
      assert [first][1..] == [] && [cut[0]][1..] == [];
    }
  }

  /** What a stream of frames is read as. */
  function ReadFrames(payloads: seq<string>): seq<string> {
    Payloads(Init(Split(Frames(payloads))))
  }

  lemma ReadFirstFrame(payloads: seq<string>)
    requires payloads != []
    ensures ReadFrames(payloads) == Payloads(Init(Split(Frame(payloads[0])))) + ReadFrames(payloads[1..])
  {
    var rest := Frames(payloads[1..]);
    if payloads[1..] != [] {
      assert rest[0] == Frame(payloads[1])[0] == PREFIX[0];
    }
    FrameThenRest(payloads[0], rest);
  }

  lemma {:induction false} FramesWeight(payloads: seq<string>)
    ensures Weight(ReadFrames(payloads)) <= Weight(payloads)
    ensures Weight(ReadFrames(payloads)) == Weight(payloads) ==> forall p <- payloads :: Clean(p)
    ensures (forall p <- payloads :: Clean(p)) ==> ReadFrames(payloads) == payloads
  {
    if payloads != [] {
      FramesWeight(payloads[1..]);
      ReadFirstFrame(payloads);
      FrameWeight(payloads[0]);
      WeightOfAppend(Payloads(Init(Split(Frame(payloads[0])))), ReadFrames(payloads[1..]));
      assert payloads == [payloads[0]] + payloads[1..];
    }
  }

  /** Main result: a stream of frames gives back exactly the payloads that were framed if and
      only if every payload is clean. */
  lemma FramesRecovered(payloads: seq<string>)
    ensures ReadFrames(payloads) == payloads <==> forall p <- payloads :: Clean(p)
  {
    FramesWeight(payloads);
  }

  /** Main result, end to end: however a stream of clean frames is cut into chunks, exactly the
      framed payloads are handed to the parser, in order. */
  lemma CleanStreamDelivers<E>(chunks: seq<string>, payloads: seq<string>, parse: string -> Option<E>)
    requires Flatten(chunks) == Frames(payloads) && forall p <- payloads :: Clean(p)
    ensures Deliver(Payloads(Init(Split(Flatten(chunks)))), parse) == Deliver(payloads, parse)
  {
    FramesRecovered(payloads);
  }
}
