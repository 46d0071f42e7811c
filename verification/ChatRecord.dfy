/** What a turn of the advisor conversation records, message by message, and what it streams, event
    by event, in terms of the replies of the model and the outputs of the tools alone. */
module ChatRecord {
  import opened Common
  import opened ChatLoop

  /** How many of the blocks are tool uses. */
  function Uses(blocks: seq<Block>): nat {
    if blocks == [] then 0 else (if blocks[0].ToolUse? then 1 else 0) + Uses(blocks[1..])
  }

  lemma {:induction false} UsesOfAppend(a: seq<Block>, b: seq<Block>)
    ensures Uses(a + b) == Uses(a) + Uses(b)
  {
    if a == [] {
      assert a + b == b;
    } else {
      assert (a + b)[1..] == a[1..] + b && (a + b)[0] == a[0];
      UsesOfAppend(a[1..], b);
    }
  }

  lemma UsesOfLast(blocks: seq<Block>)
    requires blocks != []
    ensures Uses(blocks) == Uses(Init(blocks)) + if Last(blocks).ToolUse? then 1 else 0
  {
    assert blocks == Init(blocks) + [Last(blocks)];
    UsesOfAppend(Init(blocks), [Last(blocks)]);
    assert [Last(blocks)][1..] == [];
  }

  lemma {:induction false} UsesOfPrefix(blocks: seq<Block>, p: nat)
    requires p < |blocks| && blocks[p].ToolUse?
    ensures Uses(blocks[..p]) < Uses(blocks)
  {
    assert blocks == blocks[..p] + blocks[p..];
    UsesOfAppend(blocks[..p], blocks[p..]);
  }

  /** The tool uses are picked out in order: the one at position `p` comes after as many as there
      are before `p`. */
  lemma {:induction false} ToolUseAt(blocks: seq<Block>, p: nat)
    requires p < |blocks| && blocks[p].ToolUse?
    ensures |ToolUses(blocks)| == Uses(blocks)
    ensures Uses(blocks[..p]) < |ToolUses(blocks)| && ToolUses(blocks)[Uses(blocks[..p])] == blocks[p]
  {
    ToolUseCount(blocks);
    UsesOfPrefix(blocks, p);
    UsesOfLast(blocks);
    var before := Init(blocks);
    ToolUseCount(before);
    if p < |before| {
      ToolUseAt(before, p);
      assert before[..p] == blocks[..p];
    } else {
      assert blocks[..p] == before;
    }
  }

  lemma {:induction false} ToolUseCount(blocks: seq<Block>)
    ensures |ToolUses(blocks)| == Uses(blocks)
  {
    if blocks != [] {
      UsesOfLast(blocks);
      ToolUseCount(Init(blocks));
    }
  }

  lemma {:induction false} ResultAt(k: nat, calls: seq<Block>, dispatch: Dispatch, j: nat)
    requires (forall b <- calls :: b.ToolUse?) && j < |calls|
    ensures |Results(k, calls, dispatch)| == |calls|
    ensures Results(k, calls, dispatch)[j] == ToolResult(calls[j].id, dispatch(k, calls[j]))
  {
    ResultCount(k, calls, dispatch);
    ResultCount(k, Init(calls), dispatch);
    if j < |calls| - 1 {
      ResultAt(k, Init(calls), dispatch, j);
    }
  }

  lemma {:induction false} ResultCount(k: nat, calls: seq<Block>, dispatch: Dispatch)
    requires forall b <- calls :: b.ToolUse?
    ensures |Results(k, calls, dispatch)| == |calls|
  {
    if calls != [] {
      ResultCount(k, Init(calls), dispatch);
    }
  }

  // ---------------------------------------------------------------- the messages

  /** `answer` is what is recorded after the i-th reply `r`, which asks for tools: for each tool use of
      the reply, in order, what the tool put out for it. */
  ghost predicate CarriesOutputs(answer: seq<Block>, r: Reply, i: nat, dispatch: Dispatch) {
    && |answer| == Uses(r.content)
    && forall p | 0 <= p < |r.content| && r.content[p].ToolUse? ::
         Uses(r.content[..p]) < |answer|
         && answer[Uses(r.content[..p])] == ToolResult(r.content[p].id, dispatch(i, r.content[p]))
  }

  lemma {:induction false} ExchangeCarries(k: nat, r: Reply, dispatch: Dispatch)
    ensures var rows := Exchange(k, r, dispatch);
            && |rows| == 2 && rows[0] == Row(Assistant, r.content, "", None)
            && rows[1] == Row(User, rows[1].blocks, "", None) && CarriesOutputs(rows[1].blocks, r, k, dispatch)
  {
    ToolUsesSound(r.content);
    ToolUseCount(r.content);
    var answer := Exchange(k, r, dispatch)[1].blocks;
    assert answer == Results(k, ToolUses(r.content), dispatch);
    ResultCount(k, ToolUses(r.content), dispatch);
    forall p | 0 <= p < |r.content| && r.content[p].ToolUse?
      ensures Uses(r.content[..p]) < |answer|
              && answer[Uses(r.content[..p])] == ToolResult(r.content[p].id, dispatch(k, r.content[p]))
    {
      ToolUseAt(r.content, p);
      ResultAt(k, ToolUses(r.content), dispatch, Uses(r.content[..p]));
    }
  }

  /** The messages of the i-th reply `r` stand at `at`; `total` is the usage recorded with a last one. */
  ghost predicate RecordedAt(rows: seq<Row>, at: nat, r: Reply, i: nat, dispatch: Dispatch, total: Usage) {
    if WantsTools(r) then
      && at + 1 < |rows| && rows[at] == Row(Assistant, r.content, "", None)
      && rows[at + 1] == Row(User, rows[at + 1].blocks, "", None)
      && CarriesOutputs(rows[at + 1].blocks, r, i, dispatch)
    else
      |rows| == at + 1 && rows[at] == Row(Assistant, r.content, JoinText(r.content), Some(total))
  }

  lemma {:induction false} RecordedFurther(before: seq<Row>, rows: seq<Row>, at: nat, r: Reply, i: nat, dispatch: Dispatch, total: Usage)
    requires RecordedAt(rows, at, r, i, dispatch, total)
    ensures RecordedAt(before + rows, |before| + at, r, i, dispatch, total)
  {
    var all := before + rows;
    assert all[|before| + at] == rows[at];
    assert at + 1 < |rows| ==> all[|before| + at + 1] == rows[at + 1];
  }

  lemma {:induction false} FirstRecorded(replies: seq<Reply>, k: nat, usage: Usage, dispatch: Dispatch)
    requires replies != [] && forall j | 0 <= j < |replies| - 1 :: WantsTools(replies[j])
    ensures RecordedAt(Said(replies, k, usage, dispatch), 0, replies[0], k, dispatch, Add(usage, SumUsage(replies)))
  {
    if WantsTools(replies[0]) {
      ExchangeCarries(k, replies[0], dispatch);
    } else {
      assert replies[1..] == [];
    }
  }

  lemma {:induction false} SaidAt(replies: seq<Reply>, k: nat, usage: Usage, dispatch: Dispatch, i: nat)
    requires i < |replies| && forall j | 0 <= j < |replies| - 1 :: WantsTools(replies[j])
    ensures RecordedAt(Said(replies, k, usage, dispatch), 2 * i, replies[i], k + i, dispatch, Add(usage, SumUsage(replies)))
  {
    if i == 0 {
      FirstRecorded(replies, k, usage, dispatch);
    } else {
      var r, later := replies[0], replies[1..];
      var rest := Said(later, k + 1, Add(usage, r.usage), dispatch);
      SaidAt(later, k + 1, Add(usage, r.usage), dispatch, i - 1);
      AddAssociates(usage, r.usage, SumUsage(later));
      assert later[i - 1] == replies[i];
      ExchangeCarries(k, r, dispatch);
      RecordedFurther(Exchange(k, r, dispatch), rest, 2 * (i - 1), replies[i], k + i, dispatch, Add(usage, SumUsage(replies)));
    }
  }

  lemma {:induction false} SaidLength(replies: seq<Reply>, k: nat, usage: Usage, dispatch: Dispatch)
    requires forall j | 0 <= j < |replies| - 1 :: WantsTools(replies[j])
    ensures |Said(replies, k, usage, dispatch)|
         == 2 * |replies| - if replies != [] && !WantsTools(Last(replies)) then 1 else 0
  {
    if replies != [] && WantsTools(replies[0]) {
      SaidLength(replies[1..], k + 1, Add(usage, replies[0].usage), dispatch);
      assert |replies| > 1 ==> Last(replies[1..]) == Last(replies);
    }
  }

  /** The whole text of a list of blocks: those of its text blocks, one after the other. */
  lemma {:induction false} TextOfAppend(a: seq<Block>, b: seq<Block>)
    ensures JoinText(a + b) == JoinText(a) + JoinText(b)
  {
    if a == [] {
      assert a + b == b;
    } else {
      assert (a + b)[1..] == a[1..] + b && (a + b)[0] == a[0];
      TextOfAppend(a[1..], b);
      var first := if a[0].Text? then a[0].text else "";
      assert first + (JoinText(a[1..]) + JoinText(b)) == (first + JoinText(a[1..])) + JoinText(b);
    }
  }

  lemma TextOfOne(block: Block)
    ensures JoinText([block]) == if block.Text? then block.text else ""
  {
    assert [block][1..] == [];
  }

  /** Main result: what a turn records. After the history comes the question; then, for every reply
      that asks for tools, two messages; then, if the turn is done, one more. */
  lemma {:induction false} TurnLength(llm: Llm, dispatch: Dispatch, rows: seq<Row>, text: string, cap: nat)
    ensures var t := RunTurn(llm, dispatch, rows, text, cap);
            && |t.rows| == |rows| + 1 + 2 * |t.replies| - (if t.done then 1 else 0)
            && t.rows[..|rows|] == rows && t.rows[|rows|] == Row(User, [Text(text)], text, None)
  {
    var t := RunTurn(llm, dispatch, rows, text, cap);
    TurnAppends(llm, dispatch, rows, text, cap);
    AllButLastWant(llm, dispatch, rows, text, cap);
    SaidLength(t.replies, 0, ZERO, dispatch);
    ShiftedBy(rows, UserRow(text), Said(t.replies, 0, ZERO, dispatch));
  }

  /** Of a reply that asks for tools: the reply itself, and a user message holding, tool use by tool
      use in order, the output of that tool for that call. Of the reply that ends the turn: the
      reply with its text and the usage of the whole turn. */
  lemma {:induction false} TurnRecords(llm: Llm, dispatch: Dispatch, rows: seq<Row>, text: string, cap: nat, i: nat)
    requires i < |RunTurn(llm, dispatch, rows, text, cap).replies|
    ensures var t := RunTurn(llm, dispatch, rows, text, cap);
            var r, at := t.replies[i], |rows| + 1 + 2 * i;
            && RecordedAt(t.rows, at, r, i, dispatch, SumUsage(t.replies))
            && (!WantsTools(r) <==> t.done && i == |t.replies| - 1)
  {
    TurnAppends(llm, dispatch, rows, text, cap);
    AllButLastWant(llm, dispatch, rows, text, cap);
    var t := RunTurn(llm, dispatch, rows, text, cap);
    RecordAt(rows, UserRow(text), t.rows, t.replies, dispatch, i);
  }

  lemma {:induction false} RecordAt(rows: seq<Row>, user: Row, all: seq<Row>, replies: seq<Reply>, dispatch: Dispatch, i: nat)
    requires i < |replies| && forall j | 0 <= j < |replies| - 1 :: WantsTools(replies[j])
    requires all == rows + ([user] + Said(replies, 0, ZERO, dispatch))
    ensures RecordedAt(all, |rows| + 1 + 2 * i, replies[i], i, dispatch, SumUsage(replies))
  {
    SaidAt(replies, 0, ZERO, dispatch, i);
    assert all == (rows + [user]) + Said(replies, 0, ZERO, dispatch);
    RecordedFurther(rows + [user], Said(replies, 0, ZERO, dispatch), 2 * i, replies[i], i, dispatch, SumUsage(replies));
  }

  /** The usage of a turn is the sum over its replies, component by component. */
  lemma {:induction false} UsageAddsUp(replies: seq<Reply>, r: Reply)
    ensures SumUsage([]) == Usage(0, 0, 0, 0)
    ensures var before, after := SumUsage(replies), SumUsage(replies + [r]);
            && after.input == before.input + r.usage.input && after.output == before.output + r.usage.output
            && after.cacheRead == before.cacheRead + r.usage.cacheRead
            && after.cacheCreation == before.cacheCreation + r.usage.cacheCreation
  {
    if replies == [] {
      assert [] + [r] == [r] && [r][1..] == [];
    } else {
      assert (replies + [r])[1..] == replies[1..] + [r] && (replies + [r])[0] == replies[0];
      UsageAddsUp(replies[1..], r);
    }
  }

  lemma ShiftedBy(rows: seq<Row>, user: Row, said: seq<Row>)
    ensures var all := rows + ([user] + said);
            && |all| == |rows| + 1 + |said| && all[..|rows|] == rows && all[|rows|] == user
            && forall j | 0 <= j < |said| :: all[|rows| + 1 + j] == said[j]
  {
  }

  lemma {:induction false} FirstReply(llm: Llm, dispatch: Dispatch, rows: seq<Row>, usage: Usage, k: nat, cap: nat)
    requires k <= cap && Rounds(llm, dispatch, rows, usage, k, cap).replies != []
    ensures var t := Rounds(llm, dispatch, rows, usage, k, cap);
            |rows| <= |t.rows| && t.rows[..|rows|] == rows && t.replies[0] == llm(k, Conversation(rows))
  {
    RoundsAppend(llm, dispatch, rows, usage, k, cap);
  }

  lemma {:induction false} LaterReply(llm: Llm, dispatch: Dispatch, rows: seq<Row>, usage: Usage, k: nat, cap: nat, i: nat)
      returns (longer: seq<Row>, total: Usage)
    requires k <= cap && 0 < i < |Rounds(llm, dispatch, rows, usage, k, cap).replies|
    ensures k < cap && |longer| == |rows| + 2
    ensures var t, next := Rounds(llm, dispatch, rows, usage, k, cap), Rounds(llm, dispatch, longer, total, k + 1, cap);
            t.rows == next.rows && i - 1 < |next.replies| && t.replies[i] == next.replies[i - 1]
  {
    var r := llm(k, Conversation(rows));
    longer, total := rows + Exchange(k, r, dispatch), Add(usage, r.usage);
    ToolRoundOpens(llm, dispatch, rows, usage, k, cap, Rounds(llm, dispatch, longer, total, k + 1, cap));
  }

  lemma {:induction false} RoundsAsk(llm: Llm, dispatch: Dispatch, rows: seq<Row>, usage: Usage, k: nat, cap: nat, t: Turn, i: nat,
                                     at: nat, n: nat)
    requires k <= cap && t == Rounds(llm, dispatch, rows, usage, k, cap) && i < |t.replies|
    requires at == |rows| + 2 * i && n == k + i
    ensures at <= |t.rows| && t.replies[i] == llm(n, Conversation(t.rows[..at]))
    decreases i
  {
    if i == 0 {
      FirstReply(llm, dispatch, rows, usage, k, cap);
    } else {
      var longer, total := LaterReply(llm, dispatch, rows, usage, k, cap, i);
      RoundsAsk(llm, dispatch, longer, total, k + 1, cap, Rounds(llm, dispatch, longer, total, k + 1, cap), i - 1, at, n);
    }
  }

  /** And where the replies come from: the i-th is the model's answer to the conversation recorded
      before it. */
  lemma {:induction false} TurnAsks(llm: Llm, dispatch: Dispatch, rows: seq<Row>, text: string, cap: nat, i: nat)
    requires i < |RunTurn(llm, dispatch, rows, text, cap).replies|
    ensures var t, at := RunTurn(llm, dispatch, rows, text, cap), |rows| + 1 + 2 * i;
            at <= |t.rows| && t.replies[i] == llm(i, Conversation(t.rows[..at]))
  {
    RoundsAsk(llm, dispatch, rows + [UserRow(text)], ZERO, 0, cap, RunTurn(llm, dispatch, rows, text, cap), i,
              |rows| + 1 + 2 * i, i);
  }

  /** A conversation is the sides and blocks of its messages, in order. */
  lemma {:induction false} ConversationAt(rows: seq<Row>)
    ensures |Conversation(rows)| == |rows|
    ensures forall i | 0 <= i < |rows| :: Conversation(rows)[i] == Message(rows[i].role, rows[i].blocks)
  {
    if rows != [] {
      ConversationAt(Init(rows));
    }
  }

  // ---------------------------------------------------------------- the events

  lemma {:induction false} TokenAt(deltas: seq<string>)
    ensures |Tokens(deltas)| == |deltas| && forall j | 0 <= j < |deltas| :: Tokens(deltas)[j] == Token(deltas[j])
  {
    if deltas != [] {
      TokenAt(Init(deltas));
    }
  }

  lemma {:induction false} ToolEventAt(calls: seq<Block>)
    requires forall b <- calls :: b.ToolUse?
    ensures |ToolEvents(calls)| == 2 * |calls|
    ensures forall j | 0 <= j < |calls| ::
              ToolEvents(calls)[2 * j] == ToolCall(calls[j].name) && ToolEvents(calls)[2 * j + 1] == ToolDone(calls[j].name)
  {
    if calls != [] {
      ToolEventAt(Init(calls));
    }
  }

  /** What a reply streams: its fragments in order, then, if it asks for tools, a call and a result for
      each tool use in order. */
  ghost predicate Streams(events: seq<Event>, r: Reply) {
    && |events| == |r.deltas| + (if WantsTools(r) then 2 * Uses(r.content) else 0)
    && (forall j | 0 <= j < |r.deltas| :: events[j] == Token(r.deltas[j]))
    && (WantsTools(r) ==> forall p | 0 <= p < |r.content| && r.content[p].ToolUse? ::
          var at := |r.deltas| + 2 * Uses(r.content[..p]);
          && at + 1 < |events|
          && events[at] == ToolCall(r.content[p].name) && events[at + 1] == ToolDone(r.content[p].name))
  }

  lemma {:induction false} RoundStreams(r: Reply)
    requires WantsTools(r)
    ensures Streams(RoundEvents(r), r)
  {
    var tokens, rest := RoundParts(r);
    TokenAt(r.deltas);
    forall p | 0 <= p < |r.content| && r.content[p].ToolUse?
      ensures var at := |r.deltas| + 2 * Uses(r.content[..p]);
              && at + 1 < |tokens + rest|
              && (tokens + rest)[at] == ToolCall(r.content[p].name) && (tokens + rest)[at + 1] == ToolDone(r.content[p].name)
    {
      UseStreams(r.content, p);
      Shifted(tokens, rest, 2 * Uses(r.content[..p]));
      Shifted(tokens, rest, 2 * Uses(r.content[..p]) + 1);
    }
    assert forall j | 0 <= j < |r.deltas| :: (tokens + rest)[j] == tokens[j];
    StreamsIf(tokens + rest, r);
  }

  lemma {:induction false} StreamsIf(events: seq<Event>, r: Reply)
    requires WantsTools(r) && |events| == |r.deltas| + 2 * Uses(r.content)
    requires forall j | 0 <= j < |r.deltas| :: events[j] == Token(r.deltas[j])
    requires forall p | 0 <= p < |r.content| && r.content[p].ToolUse? ::
               var at := |r.deltas| + 2 * Uses(r.content[..p]);
               && at + 1 < |events|
               && events[at] == ToolCall(r.content[p].name) && events[at + 1] == ToolDone(r.content[p].name)
    ensures Streams(events, r)
  {
  }

  lemma {:induction false} RoundParts(r: Reply) returns (tokens: seq<Event>, rest: seq<Event>)
    ensures forall b <- ToolUses(r.content) :: b.ToolUse?
    ensures tokens == Tokens(r.deltas) && rest == ToolEvents(ToolUses(r.content)) && RoundEvents(r) == tokens + rest
    ensures |tokens| == |r.deltas| && |rest| == 2 * Uses(r.content)
  {
    ToolUsesSound(r.content);
    TokenAt(r.deltas);
    ToolEventAt(ToolUses(r.content));
    ToolUseCount(r.content);
    tokens, rest := Tokens(r.deltas), ToolEvents(ToolUses(r.content));
  }

  lemma Shifted<T>(a: seq<T>, b: seq<T>, j: nat)
    requires j < |b|
    ensures (a + b)[|a| + j] == b[j]
  {
  }

  lemma {:induction false} UseStreams(content: seq<Block>, p: nat)
    requires p < |content| && content[p].ToolUse?
    ensures forall b <- ToolUses(content) :: b.ToolUse?
    ensures var events, j := ToolEvents(ToolUses(content)), 2 * Uses(content[..p]);
            && |events| == 2 * Uses(content) && j + 1 < |events|
            && events[j] == ToolCall(content[p].name) && events[j + 1] == ToolDone(content[p].name)
  {
    ToolUsesSound(content);
    ToolUseAt(content, p);
    ToolEventAt(ToolUses(content));
  }

  function Flat(parts: seq<seq<Event>>): seq<Event> {
    if parts == [] then [] else parts[0] + Flat(parts[1..])
  }

  /** The events of a turn are what its calls stream, one after the other, and one last event. */
  ghost predicate CutByCall(events: seq<Event>, replies: seq<Reply>, parts: seq<seq<Event>>) {
    && events != [] && events == Flat(parts) + [Last(events)]
    && |parts| == |replies| && forall i | 0 <= i < |replies| :: Streams(parts[i], replies[i])
  }

  lemma {:induction false} CutFurther(head: seq<Event>, r: Reply, rest: seq<Event>, replies: seq<Reply>, later: seq<seq<Event>>)
    requires Streams(head, r) && CutByCall(rest, replies, later)
    ensures CutByCall(head + rest, [r] + replies, [head] + later)
  {
    assert ([head] + later)[1..] == later;
    assert head + (Flat(later) + [Last(rest)]) == (head + Flat(later)) + [Last(rest)];
  }

  lemma {:induction false} RoundsStream(llm: Llm, dispatch: Dispatch, rows: seq<Row>, usage: Usage, k: nat, cap: nat)
      returns (parts: seq<seq<Event>>)
    requires k <= cap
    ensures var t := Rounds(llm, dispatch, rows, usage, k, cap); CutByCall(t.events, t.replies, parts)
    decreases cap - k
  {
    if k == cap {
      parts := [];
      assert [] + [Error] == [Error];
    } else {
      var r := llm(k, Conversation(rows));
      var total := Add(usage, r.usage);
      if WantsTools(r) {
        var next := Rounds(llm, dispatch, rows + Exchange(k, r, dispatch), total, k + 1, cap);
        ToolRoundOpens(llm, dispatch, rows, usage, k, cap, next);
        var later := RoundsStream(llm, dispatch, rows + Exchange(k, r, dispatch), total, k + 1, cap);
        RoundStreams(r);
        CutFurther(RoundEvents(r), r, next.events, next.replies, later);
        parts := [RoundEvents(r)] + later;
      } else {
        TokenAt(r.deltas);
        parts := [Tokens(r.deltas)];
        assert parts[1..] == [] && Flat(parts) == Tokens(r.deltas) + [] == Tokens(r.deltas);
      }
    }
  }

  /** Main result: what a turn streams. Call by call, the fragments of the reply in order and, if it
      asks for tools, a call and a result for each of them in order; then one last event, the usage
      of the whole turn if it is done and the error otherwise. */
  lemma {:induction false} TurnStreams(llm: Llm, dispatch: Dispatch, rows: seq<Row>, text: string, cap: nat)
      returns (parts: seq<seq<Event>>)
    ensures var t := RunTurn(llm, dispatch, rows, text, cap);
            && CutByCall(t.events, t.replies, parts)
            && Last(t.events) == if t.done then Done(SumUsage(t.replies)) else Error
  {
    parts := RoundsStream(llm, dispatch, rows + [UserRow(text)], ZERO, 0, cap);
    TurnEnds(llm, dispatch, rows, text, cap);
  }
}
