/** One turn of the advisor conversation (backend/app/services/advisor/chat.py): the model is
    called at most `iteration_cap` times, its tool requests are carried out between calls, and
    everything said is persisted. The model and the tools are arbitrary functions; the stored
    log of a thread is the list of its messages in order of insertion. */
module ChatLoop {
  import opened Common

  datatype Role = User | Assistant

  datatype Block = Text(text: string) | ToolUse(id: string, name: string, input: string)
    | ToolResult(id: string, content: string) | OtherBlock(kind: string)

  datatype Usage = Usage(input: int, output: int, cacheRead: int, cacheCreation: int)

  datatype Message = Message(role: Role, blocks: seq<Block>)

  /** A stored message. `text` is what is shown of it. */
  datatype Row = Row(role: Role, blocks: seq<Block>, text: string, usage: Option<Usage>)

  /** One call of the model: the text fragments it streams, then the whole answer. */
  datatype Reply = Reply(deltas: seq<string>, content: seq<Block>, stopReason: string, usage: Usage)

  /** The model, given how many calls the turn has made, and the tools, given also the call. */
  type Llm = (nat, seq<Message>) -> Reply
  type Dispatch = (nat, Block) -> string

  datatype Event = Token(text: string) | ToolCall(tool: string) | ToolDone(tool: string)
    | Done(usage: Usage) | Error

  const ZERO := Usage(0, 0, 0, 0)

  function Add(a: Usage, b: Usage): Usage {
    Usage(a.input + b.input, a.output + b.output, a.cacheRead + b.cacheRead, a.cacheCreation + b.cacheCreation)
  }

  function Conversation(rows: seq<Row>): seq<Message> {
    if rows == [] then [] else Conversation(Init(rows)) + [Message(Last(rows).role, Last(rows).blocks)]
  }

  function JoinText(blocks: seq<Block>): string {
    if blocks == [] then "" else (if blocks[0].Text? then blocks[0].text else "") + JoinText(blocks[1..])
  }

  function ToolUses(blocks: seq<Block>): seq<Block> {
    if blocks == [] then [] else ToolUses(Init(blocks)) + if Last(blocks).ToolUse? then [Last(blocks)] else []
  }

  function Tokens(deltas: seq<string>): seq<Event> {
    if deltas == [] then [] else Tokens(Init(deltas)) + [Token(Last(deltas))]
  }

  function Results(k: nat, calls: seq<Block>, dispatch: Dispatch): seq<Block>
    requires forall b <- calls :: b.ToolUse?
  {
    if calls == [] then []
    else Results(k, Init(calls), dispatch) + [ToolResult(Last(calls).id, dispatch(k, Last(calls)))]
  }

  function ToolEvents(calls: seq<Block>): seq<Event>
    requires forall b <- calls :: b.ToolUse?
  {
    if calls == [] then [] else ToolEvents(Init(calls)) + [ToolCall(Last(calls).name), ToolDone(Last(calls).name)]
  }

  lemma {:induction false} ToolUsesSound(blocks: seq<Block>)
    ensures forall b <- ToolUses(blocks) :: b.ToolUse?
    ensures ToolUses(blocks) == [] <==> forall b <- blocks :: !b.ToolUse?
  {
    if blocks != [] {
      ToolUsesSound(Init(blocks));
      assert blocks == Init(blocks) + [Last(blocks)];
    }
  }

  // ---------------------------------------------------------------- the turn as a function

  predicate WantsTools(r: Reply) {
    r.stopReason == "tool_use"
  }

  /** The replies of a turn's calls, each made on the log as it stands. */
  datatype Turn = Turn(rows: seq<Row>, replies: seq<Reply>, events: seq<Event>, done: bool)

  function Exchange(k: nat, r: Reply, dispatch: Dispatch): seq<Row> {
    ToolUsesSound(r.content);
    [Row(Assistant, r.content, "", None), Row(User, Results(k, ToolUses(r.content), dispatch), "", None)]
  }

  function FinalRow(r: Reply, usage: Usage): Row {
    Row(Assistant, r.content, JoinText(r.content), Some(usage))
  }

  function UserRow(text: string): Row {
    Row(User, [Text(text)], text, None)
  }

  /** What a thread begins with: the brief, an assistant message. */
  function Brief(text: string, usage: Usage): Row {
    Row(Assistant, [Text(text)], text, Some(usage))
  }

  function Rounds(llm: Llm, dispatch: Dispatch, rows: seq<Row>, usage: Usage, k: nat, cap: nat): Turn
    requires k <= cap
    decreases cap - k
  {
    if k == cap then Turn(rows, [], [Error], false)
    else
      var r := llm(k, Conversation(rows));
      var total := Add(usage, r.usage);
      if !WantsTools(r) then
        Turn(rows + [FinalRow(r, total)], [r], Tokens(r.deltas) + [Done(total)], true)
      else
        ToolUsesSound(r.content);
        var rest := Rounds(llm, dispatch, rows + Exchange(k, r, dispatch), total, k + 1, cap);
        Turn(rest.rows, [r] + rest.replies, Tokens(r.deltas) + ToolEvents(ToolUses(r.content)) + rest.events, rest.done)
  }

  function RunTurn(llm: Llm, dispatch: Dispatch, rows: seq<Row>, text: string, cap: nat): Turn {
    Rounds(llm, dispatch, rows + [UserRow(text)], ZERO, 0, cap)
  }

  // ---------------------------------------------------------------- calls, events, usage

  function SumUsage(replies: seq<Reply>): Usage {
    if replies == [] then ZERO else Add(replies[0].usage, SumUsage(replies[1..]))
  }

  predicate Terminal(e: Event) {
    e.Done? || e.Error?
  }

  lemma {:induction false} TokensAreNotTerminal(deltas: seq<string>)
    ensures forall e <- Tokens(deltas) :: !Terminal(e)
  {
    if deltas != [] {
      TokensAreNotTerminal(Init(deltas));
    }
  }

  lemma {:induction false} ToolEventsAreNotTerminal(calls: seq<Block>)
    requires forall b <- calls :: b.ToolUse?
    ensures forall e <- ToolEvents(calls) :: !Terminal(e)
  {
    if calls != [] {
      ToolEventsAreNotTerminal(Init(calls));
    }
  }

  /** The replies say how a turn ends: all but the last ask for tools; the turn is done exactly
      if the last one does not, and fails exactly if all of `cap - k` calls were spent on tools. */
  lemma {:induction false} HowRoundsEnd(llm: Llm, dispatch: Dispatch, rows: seq<Row>, usage: Usage, k: nat, cap: nat)
    requires k <= cap
    ensures var t := Rounds(llm, dispatch, rows, usage, k, cap);
            && |t.replies| <= cap - k
            && (t.done ==> t.replies != [] && !WantsTools(Last(t.replies)) && forall r <- Init(t.replies) :: WantsTools(r))
            && (!t.done <==> |t.replies| == cap - k && forall r <- t.replies :: WantsTools(r))
    decreases cap - k
  {
    if k < cap {
      var r := llm(k, Conversation(rows));
      if WantsTools(r) {
        HowRoundsEnd(llm, dispatch, rows + Exchange(k, r, dispatch), Add(usage, r.usage), k + 1, cap);
      }
    }
  }

  lemma AllButLastWant(llm: Llm, dispatch: Dispatch, rows: seq<Row>, text: string, cap: nat)
    ensures var t := RunTurn(llm, dispatch, rows, text, cap);
            && (forall i | 0 <= i < |t.replies| - 1 :: WantsTools(t.replies[i]))
            && (t.done <==> t.replies != [] && !WantsTools(Last(t.replies)))
  {
    HowRoundsEnd(llm, dispatch, rows + [UserRow(text)], ZERO, 0, cap);
    var t := RunTurn(llm, dispatch, rows, text, cap);
    forall i | 0 <= i < |t.replies| - 1 ensures WantsTools(t.replies[i]) {
      assert t.replies[i] == Init(t.replies)[i];
      assert t.replies[i] in Init(t.replies);
    }
  }

  predicate OneTerminalAtEnd(events: seq<Event>) {
    events != [] && Terminal(Last(events)) && forall e <- Init(events) :: !Terminal(e)
  }

  lemma PrependNonTerminal(before: seq<Event>, events: seq<Event>)
    requires OneTerminalAtEnd(events) && forall e <- before :: !Terminal(e)
    ensures OneTerminalAtEnd(before + events) && Last(before + events) == Last(events)
  {
    assert Init(before + events) == before + Init(events);
  }

  lemma AddAssociates(a: Usage, b: Usage, c: Usage)
    ensures Add(Add(a, b), c) == Add(a, Add(b, c))
  {
  }

  lemma {:induction false} RoundsTerminate(llm: Llm, dispatch: Dispatch, rows: seq<Row>, usage: Usage, k: nat, cap: nat)
    requires k <= cap
    ensures var t := Rounds(llm, dispatch, rows, usage, k, cap);
            && OneTerminalAtEnd(t.events)
            && Last(t.events) == if t.done then Done(Add(usage, SumUsage(t.replies))) else Error
    decreases cap - k
  {
    if k < cap {
      var r := llm(k, Conversation(rows));
      var total := Add(usage, r.usage);
      TokensAreNotTerminal(r.deltas);
      if WantsTools(r) {
        ToolUsesSound(r.content);
        ToolEventsAreNotTerminal(ToolUses(r.content));
        var rest := Rounds(llm, dispatch, rows + Exchange(k, r, dispatch), total, k + 1, cap);
        RoundsTerminate(llm, dispatch, rows + Exchange(k, r, dispatch), total, k + 1, cap);
        PrependNonTerminal(Tokens(r.deltas) + ToolEvents(ToolUses(r.content)), rest.events);
        AddAssociates(usage, r.usage, SumUsage(rest.replies));
        assert ([r] + rest.replies)[1..] == rest.replies;
      } else {
        PrependNonTerminal(Tokens(r.deltas), [Done(total)]);
        assert [r][1..] == [];
      }
    }
  }

  /** Main result: a turn calls the model at most `cap` times and ends with exactly one terminal
      event; that event is the error exactly if every one of `cap` replies asked for tools, and
      otherwise carries the sum of the usage of all calls. */
  lemma TurnEnds(llm: Llm, dispatch: Dispatch, rows: seq<Row>, text: string, cap: nat)
    ensures var t := RunTurn(llm, dispatch, rows, text, cap);
            && |t.replies| <= cap
            && OneTerminalAtEnd(t.events)
            && Last(t.events) == (if t.done then Done(SumUsage(t.replies)) else Error)
            && (!t.done <==> |t.replies| == cap && forall r <- t.replies :: WantsTools(r))
  {
    var start := rows + [UserRow(text)];
    HowRoundsEnd(llm, dispatch, start, ZERO, 0, cap);
    RoundsTerminate(llm, dispatch, start, ZERO, 0, cap);
  }

  // ---------------------------------------------------------------- what is appended to the log

  /** The rows a list of replies leaves in the log, the first of them being the k-th call's. */
  function Said(replies: seq<Reply>, k: nat, usage: Usage, dispatch: Dispatch): seq<Row> {
    if replies == [] then []
    else if !WantsTools(replies[0]) then [FinalRow(replies[0], Add(usage, replies[0].usage))]
    else Exchange(k, replies[0], dispatch) + Said(replies[1..], k + 1, Add(usage, replies[0].usage), dispatch)
  }

  lemma {:induction false} RoundsAppend(llm: Llm, dispatch: Dispatch, rows: seq<Row>, usage: Usage, k: nat, cap: nat)
    requires k <= cap
    ensures var t := Rounds(llm, dispatch, rows, usage, k, cap);
            t.rows == rows + Said(t.replies, k, usage, dispatch)
    decreases cap - k
  {
    if k < cap {
      var r := llm(k, Conversation(rows));
      if WantsTools(r) {
        var next := rows + Exchange(k, r, dispatch);
        RoundsAppend(llm, dispatch, next, Add(usage, r.usage), k + 1, cap);
        var rest := Rounds(llm, dispatch, next, Add(usage, r.usage), k + 1, cap);
        assert ([r] + rest.replies)[1..] == rest.replies;
      }
    }
  }

  lemma TurnAppends(llm: Llm, dispatch: Dispatch, rows: seq<Row>, text: string, cap: nat)
    ensures var t := RunTurn(llm, dispatch, rows, text, cap);
            t.rows == rows + ([UserRow(text)] + Said(t.replies, 0, ZERO, dispatch))
  {
    RoundsAppend(llm, dispatch, rows + [UserRow(text)], ZERO, 0, cap);
  }

  // ---------------------------------------------------------------- tool results answer tool uses

  function UseIds(blocks: seq<Block>): seq<string>
    requires forall b <- blocks :: b.ToolUse?
  {
    if blocks == [] then [] else UseIds(Init(blocks)) + [Last(blocks).id]
  }

  function ResultIds(blocks: seq<Block>): seq<string>
    requires forall b <- blocks :: b.ToolResult?
  {
    if blocks == [] then [] else ResultIds(Init(blocks)) + [Last(blocks).id]
  }

  /** `answer` is a user message that answers every tool use of `row`, in order. */
  ghost predicate Answers(answer: Row, row: Row) {
    ToolUsesSound(row.blocks);
    && answer.role == User
    && (forall b <- answer.blocks :: b.ToolResult?)
    && ResultIds(answer.blocks) == UseIds(ToolUses(row.blocks))
  }

  ghost predicate AnsweredAt(rows: seq<Row>, i: nat)
    requires i < |rows|
  {
    rows[i].role == Assistant && ToolUses(rows[i].blocks) != [] ==> i + 1 < |rows| && Answers(rows[i + 1], rows[i])
  }

  ghost predicate AllAnswered(rows: seq<Row>) {
    forall i | 0 <= i < |rows| :: AnsweredAt(rows, i)
  }

  lemma {:induction false} ResultsAnswer(k: nat, calls: seq<Block>, dispatch: Dispatch)
    requires forall b <- calls :: b.ToolUse?
    ensures forall b <- Results(k, calls, dispatch) :: b.ToolResult?
    ensures ResultIds(Results(k, calls, dispatch)) == UseIds(calls)
  {
    if calls != [] {
      ResultsAnswer(k, Init(calls), dispatch);
      var results := Results(k, calls, dispatch);
      assert Init(results) == Results(k, Init(calls), dispatch);
    }
  }

  lemma ExchangeIsAnswered(k: nat, r: Reply, dispatch: Dispatch)
    ensures AllAnswered(Exchange(k, r, dispatch))
  {
    ToolUsesSound(r.content);
    ResultsAnswer(k, ToolUses(r.content), dispatch);
    var rows := Exchange(k, r, dispatch);
    assert Answers(rows[1], rows[0]);
  }

  lemma AppendAnswered(a: seq<Row>, b: seq<Row>)
    requires AllAnswered(a)
    ensures AllAnswered(a + b) <==> AllAnswered(b)
  {
    forall i | 0 <= i < |a| ensures AnsweredAt(a + b, i) {
      assert AnsweredAt(a, i);
    }
    forall i | 0 <= i < |b| ensures AnsweredAt(a + b, |a| + i) <==> AnsweredAt(b, i) {
    }
    if AllAnswered(a + b) {
      forall i | 0 <= i < |b| ensures AnsweredAt(b, i) {
        assert AnsweredAt(a + b, |a| + i);
      }
    }
    if AllAnswered(b) {
      forall i | |a| <= i < |a + b| ensures AnsweredAt(a + b, i) {
        assert AnsweredAt(b, i - |a|);
      }
    }
  }

  /** A reply that ends the turn asks for no tool. */
  predicate PlainEnd(replies: seq<Reply>) {
    forall r <- replies :: !WantsTools(r) ==> ToolUses(r.content) == []
  }

  lemma {:induction false} SaidIsAnswered(replies: seq<Reply>, k: nat, usage: Usage, dispatch: Dispatch)
    requires forall i | 0 <= i < |replies| - 1 :: WantsTools(replies[i])
    ensures AllAnswered(Said(replies, k, usage, dispatch)) <==> PlainEnd(replies)
  {
    if replies != [] {
      var r := replies[0];
      assert replies == [r] + replies[1..];
      if WantsTools(r) {
        SaidIsAnswered(replies[1..], k + 1, Add(usage, r.usage), dispatch);
        ExchangeIsAnswered(k, r, dispatch);
        AppendAnswered(Exchange(k, r, dispatch), Said(replies[1..], k + 1, Add(usage, r.usage), dispatch));
      } else {
        assert replies[1..] == [];
        var row := FinalRow(r, Add(usage, r.usage));
        assert AnsweredAt([row], 0) <==> ToolUses(r.content) == [];
      }
    }
  }

  /** A question answers no tool use, so it separates what comes before from what follows. */
  lemma QuestionSeparates(rows: seq<Row>, text: string, more: seq<Row>)
    ensures AllAnswered(rows + ([UserRow(text)] + more)) <==> AllAnswered(rows) && AllAnswered(more)
  {
    var user, all := [UserRow(text)], rows + ([UserRow(text)] + more);
    assert AnsweredAt(user, 0);
    AppendAnswered(user, more);
    if AllAnswered(all) {
      assert all[|rows|] == UserRow(text);
      forall i | 0 <= i < |rows| ensures AnsweredAt(rows, i) {
        assert AnsweredAt(all, i);
        if i + 1 == |rows| {
          QuestionAnswersNothing(text, rows[i]);
        }
      }
    }
    if AllAnswered(rows) {
      AppendAnswered(rows, user + more);
    }
  }

  lemma QuestionAnswersNothing(text: string, row: Row)
    ensures !Answers(UserRow(text), row)
  {
    var b := UserRow(text).blocks[0];
    assert b in UserRow(text).blocks && !b.ToolResult?;
  }

  /** Main result: a turn leaves every tool use answered by the message right after it, result by
      result in order, exactly if that was so before and the reply that ended it, if any,
      contains no tool use. */
  lemma TurnKeepsAnswers(llm: Llm, dispatch: Dispatch, rows: seq<Row>, text: string, cap: nat)
    ensures var t := RunTurn(llm, dispatch, rows, text, cap);
            AllAnswered(t.rows) <==> AllAnswered(rows) && PlainEnd(t.replies)
  {
    var t := RunTurn(llm, dispatch, rows, text, cap);
    TurnAppends(llm, dispatch, rows, text, cap);
    AllButLastWant(llm, dispatch, rows, text, cap);
    SaidIsAnswered(t.replies, 0, ZERO, dispatch);
    QuestionSeparates(rows, text, Said(t.replies, 0, ZERO, dispatch));
  }

  // ---------------------------------------------------------------- roles

  /** No two adjacent messages come from the same side. */
  ghost predicate Alternates(rows: seq<Row>) {
    forall i, j | 0 <= i && j == i + 1 && j < |rows| :: rows[i].role != rows[j].role
  }

  /** It is the user's turn. */
  predicate Ready(rows: seq<Row>) {
    rows == [] || Last(rows).role == Assistant
  }

  lemma {:induction false} SaidAlternates(replies: seq<Reply>, k: nat, usage: Usage, dispatch: Dispatch)
    requires forall i | 0 <= i < |replies| - 1 :: WantsTools(replies[i])
    ensures var said := Said(replies, k, usage, dispatch);
            && (forall i | 0 <= i < |said| :: said[i].role == if i % 2 == 0 then Assistant else User)
            && (|said| % 2 == 1 <==> replies != [] && !WantsTools(Last(replies)))
  {
    if replies != [] && WantsTools(replies[0]) {
      SaidAlternates(replies[1..], k + 1, Add(usage, replies[0].usage), dispatch);
      var rest := Said(replies[1..], k + 1, Add(usage, replies[0].usage), dispatch);
      var exchange := Exchange(k, replies[0], dispatch);
      ThenAlternates(exchange[0], exchange[1], rest);
      assert exchange == [exchange[0], exchange[1]];
      assert |replies| > 1 ==> Last(replies) == Last(replies[1..]);
    }
  }

  lemma ThenAlternates(a: Row, b: Row, rest: seq<Row>)
    requires a.role == Assistant && b.role == User
    requires forall i | 0 <= i < |rest| :: rest[i].role == if i % 2 == 0 then Assistant else User
    ensures var all := [a, b] + rest; forall i | 0 <= i < |all| :: all[i].role == if i % 2 == 0 then Assistant else User
  {
    var all := [a, b] + rest;
    assert forall i | 2 <= i < |all| :: all[i] == rest[i - 2];
  }

  lemma PartsAlternate(rows: seq<Row>, more: seq<Row>)
    requires more != [] && more[0].role == User && Alternates(rows + more)
    ensures Alternates(rows) && Ready(rows)
  {
    var all, n := rows + more, |rows|;
    forall i, j | 0 <= i && j == i + 1 && j < n ensures rows[i].role != rows[j].role {
      assert all[i] == rows[i] && all[j] == rows[j];
    }
    if n > 0 {
      assert all[n - 1] == rows[n - 1] && all[n] == more[0];
    }
  }

  lemma TogetherAlternate(rows: seq<Row>, more: seq<Row>)
    requires more != [] && more[0].role == User && Alternates(more)
    requires Alternates(rows) && Ready(rows)
    ensures Alternates(rows + more)
  {
    var all, n := rows + more, |rows|;
    forall i, j | 0 <= i && j == i + 1 && j < |all| ensures all[i].role != all[j].role {
      if j < n {
        assert all[i] == rows[i] && all[j] == rows[j];
      } else if i >= n {
        assert all[i] == more[i - n] && all[j] == more[j - n];
      } else {
        assert all[i] == Last(rows) && all[j] == more[0];
      }
    }
  }

  lemma AppendAlternates(rows: seq<Row>, more: seq<Row>)
    requires more != [] && more[0].role == User && Alternates(more)
    ensures Alternates(rows + more) <==> Alternates(rows) && Ready(rows)
    ensures Last(rows + more) == Last(more)
  {
    if Alternates(rows + more) {
      PartsAlternate(rows, more);
    }
    if Alternates(rows) && Ready(rows) {
      TogetherAlternate(rows, more);
    }
  }

  /** What a turn adds alternates, from the user on, and ends with the assistant exactly if the
      turn is done. */
  lemma TurnAdds(llm: Llm, dispatch: Dispatch, rows: seq<Row>, text: string, cap: nat) returns (more: seq<Row>)
    ensures var t := RunTurn(llm, dispatch, rows, text, cap);
            t.rows == rows + more && more != [] && (Last(more).role == Assistant <==> t.done)
    ensures more[0].role == User && Alternates(more)
  {
    var t := RunTurn(llm, dispatch, rows, text, cap);
    TurnAppends(llm, dispatch, rows, text, cap);
    AllButLastWant(llm, dispatch, rows, text, cap);
    SaidAlternates(t.replies, 0, ZERO, dispatch);
    var said := Said(t.replies, 0, ZERO, dispatch);
    UserThenSaid(UserRow(text), said);
    more := [UserRow(text)] + said;
  }

  /** A turn keeps the roles alternating exactly if they did and it was the user's turn; it is so
      again exactly if the turn is done. */
  lemma TurnRoles(llm: Llm, dispatch: Dispatch, rows: seq<Row>, text: string, cap: nat)
    ensures var t := RunTurn(llm, dispatch, rows, text, cap);
            && (Alternates(t.rows) <==> Alternates(rows) && Ready(rows))
            && (Ready(t.rows) <==> t.done)
  {
    var more := TurnAdds(llm, dispatch, rows, text, cap);
    AppendAlternates(rows, more);
  }

  lemma UserThenSaid(user: Row, said: seq<Row>)
    requires user.role == User
    requires forall i | 0 <= i < |said| :: said[i].role == if i % 2 == 0 then Assistant else User
    ensures Alternates([user] + said)
    ensures Last([user] + said).role == Assistant <==> |said| % 2 == 1
  {
    var more := [user] + said;
    assert forall i | 1 <= i < |more| :: more[i] == said[i - 1];
  }

  /** What a turn is given; the cap and the model may differ from turn to turn. */
  datatype Ask = Ask(llm: Llm, dispatch: Dispatch, text: string, cap: nat)

  function After(rows: seq<Row>, ask: Ask): Turn {
    RunTurn(ask.llm, ask.dispatch, rows, ask.text, ask.cap)
  }

  function Log(rows: seq<Row>, asks: seq<Ask>): seq<Row>
    decreases |asks|
  {
    if asks == [] then rows else Log(After(rows, asks[0]).rows, asks[1..])
  }

  /** Every turn but perhaps the last one is done. */
  predicate DoneButLast(rows: seq<Row>, asks: seq<Ask>)
    decreases |asks|
  {
    asks != [] ==>
      (|asks| == 1 || After(rows, asks[0]).done) && DoneButLast(After(rows, asks[0]).rows, asks[1..])
  }

  /** Main result: over any run of turns on any history, roles alternate in the log if and only if
      they did in the history, it ended on the assistant's side, and every turn before the last
      one was done. An exhausted turn ends on the user's side, so the next question makes two
      user messages in a row. */
  lemma {:induction false} RolesAlternate(rows: seq<Row>, asks: seq<Ask>)
    ensures Alternates(Log(rows, asks)) <==> Alternates(rows) && (asks != [] ==> Ready(rows)) && DoneButLast(rows, asks)
    decreases |asks|
  {
    if asks != [] {
      TurnRoles(asks[0].llm, asks[0].dispatch, rows, asks[0].text, asks[0].cap);
      RolesAlternate(After(rows, asks[0]).rows, asks[1..]);
    }
  }

  /** In a thread of the program, which begins with its brief, that is all it takes. */
  lemma {:induction false} ThreadAlternates(brief: string, usage: Usage, asks: seq<Ask>)
    ensures Alternates(Log([Brief(brief, usage)], asks)) <==> DoneButLast([Brief(brief, usage)], asks)
  {
    RolesAlternate([Brief(brief, usage)], asks);
  }

  /** Every turn is done. */
  predicate AllDone(rows: seq<Row>, asks: seq<Ask>)
    decreases |asks|
  {
    asks != [] ==> After(rows, asks[0]).done && AllDone(After(rows, asks[0]).rows, asks[1..])
  }

  lemma {:induction false} LogIsReady(rows: seq<Row>, asks: seq<Ask>)
    ensures Alternates(Log(rows, asks)) && Ready(Log(rows, asks)) <==> Alternates(rows) && Ready(rows) && AllDone(rows, asks)
    decreases |asks|
  {
    if asks != [] {
      TurnRoles(asks[0].llm, asks[0].dispatch, rows, asks[0].text, asks[0].cap);
      LogIsReady(After(rows, asks[0]).rows, asks[1..]);
    }
  }

  /** A run only appends to its history. */
  lemma {:induction false} LogExtends(rows: seq<Row>, asks: seq<Ask>)
    ensures rows <= Log(rows, asks)
    decreases |asks|
  {
    if asks != [] {
      TurnAppends(asks[0].llm, asks[0].dispatch, rows, asks[0].text, asks[0].cap);
      LogExtends(After(rows, asks[0]).rows, asks[1..]);
    }
  }

  /** Every turn that ends with a reply ends with one that contains no tool use. */
  predicate AllPlain(rows: seq<Row>, asks: seq<Ask>)
    decreases |asks|
  {
    asks != [] ==> PlainEnd(After(rows, asks[0]).replies) && AllPlain(After(rows, asks[0]).rows, asks[1..])
  }

  /** Main result: over any run, every tool use in the log is answered, in order, by the message
      right after it if and only if no reply that ended a turn contained one. */
  lemma {:induction false} AnswersExact(rows: seq<Row>, asks: seq<Ask>)
    ensures AllAnswered(Log(rows, asks)) <==> AllAnswered(rows) && AllPlain(rows, asks)
    decreases |asks|
  {
    if asks != [] {
      TurnKeepsAnswers(asks[0].llm, asks[0].dispatch, rows, asks[0].text, asks[0].cap);
      AnswersExact(After(rows, asks[0]).rows, asks[1..]);
    }
  }

  /** So it is if no model ever puts a tool use in a reply that does not stop for tools. */
  lemma {:induction false} AnswersKept(rows: seq<Row>, asks: seq<Ask>)
    requires AllAnswered(rows)
    requires forall n, messages, ask | ask in asks :: !WantsTools(ask.llm(n, messages)) ==> ToolUses(ask.llm(n, messages).content) == []
    ensures AllAnswered(Log(rows, asks))
    decreases |asks|
  {
    if asks != [] {
      var t := After(rows, asks[0]);
      TurnKeepsAnswers(asks[0].llm, asks[0].dispatch, rows, asks[0].text, asks[0].cap);
      RepliesComeFromModel(asks[0].llm, asks[0].dispatch, rows + [UserRow(asks[0].text)], ZERO, 0, asks[0].cap);
      assert asks[0] in asks;
      assert PlainEnd(t.replies);
      AnswersKept(t.rows, asks[1..]);
    }
  }

  lemma {:induction false} RepliesComeFromModel(llm: Llm, dispatch: Dispatch, rows: seq<Row>, usage: Usage, k: nat, cap: nat)
    requires k <= cap
    ensures forall r <- Rounds(llm, dispatch, rows, usage, k, cap).replies :: exists n, messages :: r == llm(n, messages)
    decreases cap - k
  {
    if k < cap {
      var r := llm(k, Conversation(rows));
      if WantsTools(r) {
        RepliesComeFromModel(llm, dispatch, rows + Exchange(k, r, dispatch), Add(usage, r.usage), k + 1, cap);
      }
    }
  }

  // ---------------------------------------------------------------- the log at each call

  /** The log when a turn makes its i-th call. */
  function LogAtCall(rows: seq<Row>, text: string, replies: seq<Reply>, i: nat, dispatch: Dispatch): seq<Row>
    requires i <= |replies|
  {
    rows + ([UserRow(text)] + Said(replies[..i], 0, ZERO, dispatch))
  }

  lemma CallLog(llm: Llm, dispatch: Dispatch, rows: seq<Row>, text: string, cap: nat, i: nat)
    requires i < |RunTurn(llm, dispatch, rows, text, cap).replies|
    ensures var log := LogAtCall(rows, text, RunTurn(llm, dispatch, rows, text, cap).replies, i, dispatch);
            && (AllAnswered(log) <==> AllAnswered(rows))
            && (Alternates(log) <==> Alternates(rows) && Ready(rows))
            && Last(log).role == User && rows <= log
  {
    var replies := RunTurn(llm, dispatch, rows, text, cap).replies;
    AllButLastWant(llm, dispatch, rows, text, cap);
    var said := Said(replies[..i], 0, ZERO, dispatch);
    assert forall j | 0 <= j < i :: WantsTools(replies[..i][j]);
    SaidIsAnswered(replies[..i], 0, ZERO, dispatch);
    QuestionSeparates(rows, text, said);
    SaidAlternates(replies[..i], 0, ZERO, dispatch);
    UserThenSaid(UserRow(text), said);
    AppendAlternates(rows, [UserRow(text)] + said);
  }

  /** After any run on any history, the log at the i-th call of a turn. */
  lemma {:induction false} CallAfterRun(rows: seq<Row>, asks: seq<Ask>, ask: Ask, i: nat)
    requires i < |After(Log(rows, asks), ask).replies|
    ensures var log := LogAtCall(Log(rows, asks), ask.text, After(Log(rows, asks), ask).replies, i, ask.dispatch);
            && rows <= log && Last(log).role == User
            && (AllAnswered(log) <==> AllAnswered(rows) && AllPlain(rows, asks))
            && (Alternates(log) <==> Alternates(rows) && Ready(rows) && AllDone(rows, asks))
  {
    CallLog(ask.llm, ask.dispatch, Log(rows, asks), ask.text, ask.cap, i);
    AnswersExact(rows, asks);
    LogIsReady(rows, asks);
    LogExtends(rows, asks);
  }

  lemma {:induction false} ConversationStart(rows: seq<Row>)
    requires rows != []
    ensures Conversation(rows) != [] && Conversation(rows)[0] == Message(rows[0].role, rows[0].blocks)
  {
    if |rows| > 1 {
      ConversationStart(Init(rows));
    }
  }

  /** Main result: in every thread of the program, the list passed to the i-th call of any turn
      begins with the brief, on the assistant's side, and the log it is made of ends on the
      user's side. Its tool uses are all answered if and only if no earlier turn ended with one,
      and its roles alternate if and only if every earlier turn was done. */
  lemma {:induction false} EveryCallIsSound(brief: string, usage: Usage, asks: seq<Ask>, ask: Ask, i: nat)
    requires i < |After(Log([Brief(brief, usage)], asks), ask).replies|
    ensures var rows := [Brief(brief, usage)];
            var log := LogAtCall(Log(rows, asks), ask.text, After(Log(rows, asks), ask).replies, i, ask.dispatch);
            && Conversation(log) != [] && Conversation(log)[0] == Message(Assistant, [Text(brief)])
            && Last(log).role == User
            && (AllAnswered(log) <==> AllPlain(rows, asks))
            && (Alternates(log) <==> AllDone(rows, asks))
  {
    var rows := [Brief(brief, usage)];
    CallAfterRun(rows, asks, ask, i);
    var log := LogAtCall(Log(rows, asks), ask.text, After(Log(rows, asks), ask).replies, i, ask.dispatch);
    assert log[0] == rows[0];
    ConversationStart(log);
    assert AllAnswered(rows) by {
      BriefAsksNothing(brief, usage);
    }
  }

  lemma BriefAsksNothing(brief: string, usage: Usage)
    ensures AllAnswered([Brief(brief, usage)])
  {
    var blocks: seq<Block> := [Text(brief)];
    ToolUsesSound(blocks);
    assert AnsweredAt([Brief(brief, usage)], 0);
  }

  lemma {:induction false} SaidNext(replies: seq<Reply>, r: Reply, k: nat, usage: Usage, dispatch: Dispatch)
    requires WantsTools(r) && forall q <- replies :: WantsTools(q)
    ensures Said(replies + [r], k, usage, dispatch) == Said(replies, k, usage, dispatch) + Exchange(k + |replies|, r, dispatch)
  {
    var all := replies + [r];
    if replies == [] {
      assert all[1..] == [];
    } else {
      assert all[1..] == replies[1..] + [r];
      SaidNext(replies[1..], r, k + 1, Add(usage, replies[0].usage), dispatch);
    }
  }

  // ---------------------------------------------------------------- the imperative loop

  /** What each call of a turn was given: the conversation in the log at that moment, and the
      model answered just that. */
  ghost predicate CallsOf(passed: seq<seq<Message>>, replies: seq<Reply>, llm: Llm, dispatch: Dispatch, rows: seq<Row>, text: string) {
    |passed| == |replies| && forall i | 0 <= i < |passed| ::
      passed[i] == Conversation(LogAtCall(rows, text, replies, i, dispatch)) && replies[i] == llm(i, passed[i])
  }

  lemma CallsNext(passed: seq<seq<Message>>, replies: seq<Reply>, llm: Llm, dispatch: Dispatch, rows: seq<Row>, text: string,
                  messages: seq<Message>, r: Reply)
    requires CallsOf(passed, replies, llm, dispatch, rows, text)
    requires messages == Conversation(rows + ([UserRow(text)] + Said(replies, 0, ZERO, dispatch))) && r == llm(|replies|, messages)
    ensures CallsOf(passed + [messages], replies + [r], llm, dispatch, rows, text)
  {
    var next := replies + [r];
    forall i | 0 <= i <= |replies| ensures next[..i] == replies[..i] {
    }
    assert replies[..|replies|] == replies;
  }

  class Thread {
    var rows: seq<Row>
    var messageCount: map<int, nat>

    /** A thread is created together with its brief. */
    constructor (brief: string, usage: Usage)
      ensures rows == [Brief(brief, usage)] && messageCount == map[]
    {
      rows := [Brief(brief, usage)];
      messageCount := map[];
    }

    method LoadHistory() returns (history: seq<Message>)
      ensures history == Conversation(rows)
    {
      history := [];
      for i := 0 to |rows|
        invariant history == Conversation(rows[..i])
      {
        assert Init(rows[..i + 1]) == rows[..i];
        history := history + [Message(rows[i].role, rows[i].blocks)];
      }
      assert rows[..|rows|] == rows;
    }

    method DispatchAll(k: nat, toolUses: seq<Block>, dispatch: Dispatch) returns (events: seq<Event>, results: seq<Block>)
      requires forall b <- toolUses :: b.ToolUse?
      ensures events == ToolEvents(toolUses) && results == Results(k, toolUses, dispatch)
    {
      events, results := [], [];
      for i := 0 to |toolUses|
        invariant events == ToolEvents(toolUses[..i]) && results == Results(k, toolUses[..i], dispatch)
      {
        assert Init(toolUses[..i + 1]) == toolUses[..i];
        var call := toolUses[i];
        events := events + [ToolCall(call.name), ToolDone(call.name)];
        results := results + [ToolResult(call.id, dispatch(k, call))];
      }
      assert toolUses[..|toolUses|] == toolUses;
    }

    /** A reply that asks for tools: carry them out, persist the exchange, keep it in memory. */
    method ToolRound(k: nat, result: Reply, dispatch: Dispatch, memory: seq<Message>)
      returns (events: seq<Event>, messages: seq<Message>)
      requires memory == Conversation(rows)
      modifies this`rows
      ensures rows == old(rows) + Exchange(k, result, dispatch)
      ensures messages == Conversation(rows)
      ensures forall b <- ToolUses(result.content) :: b.ToolUse?
      ensures events == ToolEvents(ToolUses(result.content))
    {
      ToolUsesSound(result.content);
      var toolResults;
      events, toolResults := DispatchAll(k, ToolUses(result.content), dispatch);
      rows := rows + [Row(Assistant, result.content, "", None)];
      assert Init(rows) == old(rows);
      rows := rows + [Row(User, toolResults, "", None)];
      assert Init(rows) == old(rows) + [Row(Assistant, result.content, "", None)];
      messages := memory + [Message(Assistant, result.content)];
      messages := messages + [Message(User, toolResults)];
    }

    /** Main result, on the loop: the list kept in memory and passed to each call is the
        conversation in the log at that moment; the log, the events and the daily count end as
        `RunTurn` says. */
    method RunChatTurn(llm: Llm, dispatch: Dispatch, userText: string, cap: nat, day: int)
      returns (events: seq<Event>, passed: seq<seq<Message>>)
      modifies this
      ensures var t := RunTurn(llm, dispatch, old(rows), userText, cap);
              && rows == t.rows && events == t.events
              && messageCount == (if !t.done then old(messageCount)
                                  else old(messageCount)[day := (if day in old(messageCount) then old(messageCount)[day] else 0) + 1])
              && CallsOf(passed, t.replies, llm, dispatch, old(rows), userText)
    {
      var messages := LoadHistory();
      rows := rows + [UserRow(userText)];
      assert Init(rows) == old(rows);
      messages := messages + [Message(User, [Text(userText)])];
      var totalUsage := ZERO;
      events, passed := [], [];
      ghost var replies: seq<Reply> := [];
      StartsUnderway(llm, dispatch, old(rows), userText, cap);
      for k := 0 to cap
        invariant messages == Conversation(rows) && messageCount == old(messageCount)
        invariant Underway(llm, dispatch, old(rows), userText, cap, k, rows, totalUsage, events, passed, replies)
      {
        ghost var before, usage, earlier := rows, totalUsage, events;
        var result := llm(k, messages);
        totalUsage := Add(totalUsage, result.usage);
        if result.stopReason != "tool_use" {
          rows := rows + [FinalRow(result, totalUsage)];
          messageCount := Incremented(messageCount, day);
          events := events + (Tokens(result.deltas) + [Done(totalUsage)]);
          AfterAnswer(llm, dispatch, old(rows), userText, cap, k, before, usage, earlier, passed, replies);
          passed := passed + [messages];
          return;
        }
        AfterTools(llm, dispatch, old(rows), userText, cap, k, before, usage, earlier, passed, replies);
        passed := passed + [messages];
        var toolEvents;
        toolEvents, messages := ToolRound(k, result, dispatch, messages);
        replies := replies + [result];
        events := events + (Tokens(result.deltas) + toolEvents);
      }
      AfterCap(llm, dispatch, old(rows), userText, cap, rows, totalUsage, events, passed, replies);
      events := events + [Error];
    }
  }

  /** A turn before its k-th call: the log, the usage, the events, the calls and the replies so far. */
  ghost predicate Underway(llm: Llm, dispatch: Dispatch, start: seq<Row>, text: string, cap: nat, k: nat, rows: seq<Row>,
                           usage: Usage, events: seq<Event>, passed: seq<seq<Message>>, replies: seq<Reply>)
  {
    && k <= cap && |replies| == k && (forall r <- replies :: WantsTools(r))
    && rows == start + ([UserRow(text)] + Said(replies, 0, ZERO, dispatch))
    && CallsOf(passed, replies, llm, dispatch, start, text)
    && Continues(RunTurn(llm, dispatch, start, text, cap), events, replies, Rounds(llm, dispatch, rows, usage, k, cap))
  }

  lemma StartsUnderway(llm: Llm, dispatch: Dispatch, start: seq<Row>, text: string, cap: nat)
    ensures Underway(llm, dispatch, start, text, cap, 0, start + [UserRow(text)], ZERO, [], [], [])
  {
    var t := RunTurn(llm, dispatch, start, text, cap);
    assert [] + t.events == t.events && [] + t.replies == t.replies;
    assert start + ([UserRow(text)] + []) == start + [UserRow(text)];
  }

  function RoundEvents(r: Reply): seq<Event> {
    ToolUsesSound(r.content);
    Tokens(r.deltas) + ToolEvents(ToolUses(r.content))
  }

  lemma ToolRoundOpens(llm: Llm, dispatch: Dispatch, rows: seq<Row>, usage: Usage, k: nat, cap: nat, next: Turn)
    requires k < cap && WantsTools(llm(k, Conversation(rows)))
    requires var r := llm(k, Conversation(rows));
             next == Rounds(llm, dispatch, rows + Exchange(k, r, dispatch), Add(usage, r.usage), k + 1, cap)
    ensures var r := llm(k, Conversation(rows));
            Rounds(llm, dispatch, rows, usage, k, cap) == Turn(next.rows, [r] + next.replies, RoundEvents(r) + next.events, next.done)
  {
  }

  lemma AfterTools(llm: Llm, dispatch: Dispatch, start: seq<Row>, text: string, cap: nat, k: nat, rows: seq<Row>,
                   usage: Usage, events: seq<Event>, passed: seq<seq<Message>>, replies: seq<Reply>)
    requires k < cap && Underway(llm, dispatch, start, text, cap, k, rows, usage, events, passed, replies)
    requires WantsTools(llm(k, Conversation(rows)))
    ensures var r := llm(k, Conversation(rows));
            Underway(llm, dispatch, start, text, cap, k + 1, rows + Exchange(k, r, dispatch), Add(usage, r.usage),
                     events + RoundEvents(r), passed + [Conversation(rows)], replies + [r])
  {
    var r := llm(k, Conversation(rows));
    var rest := Rounds(llm, dispatch, rows, usage, k, cap);
    var next := Rounds(llm, dispatch, rows + Exchange(k, r, dispatch), Add(usage, r.usage), k + 1, cap);
    ToolRoundOpens(llm, dispatch, rows, usage, k, cap, next);
    ContinuesNext(RunTurn(llm, dispatch, start, text, cap), events, replies, rest, r, next, RoundEvents(r));
    CallsNext(passed, replies, llm, dispatch, start, text, Conversation(rows), r);
    LogGrows(start, text, rows, replies, r, dispatch);
  }

  lemma {:induction false} LogGrows(start: seq<Row>, text: string, rows: seq<Row>, replies: seq<Reply>, r: Reply, dispatch: Dispatch)
    requires rows == start + ([UserRow(text)] + Said(replies, 0, ZERO, dispatch))
    requires WantsTools(r) && forall q <- replies :: WantsTools(q)
    ensures rows + Exchange(|replies|, r, dispatch) == start + ([UserRow(text)] + Said(replies + [r], 0, ZERO, dispatch))
    ensures forall q <- replies + [r] :: WantsTools(q)
  {
    SaidNext(replies, r, 0, ZERO, dispatch);
    LogNext(start, UserRow(text), Said(replies, 0, ZERO, dispatch), Exchange(|replies|, r, dispatch));
  }

  lemma AfterAnswer(llm: Llm, dispatch: Dispatch, start: seq<Row>, text: string, cap: nat, k: nat, rows: seq<Row>,
                    usage: Usage, events: seq<Event>, passed: seq<seq<Message>>, replies: seq<Reply>)
    requires k < cap && Underway(llm, dispatch, start, text, cap, k, rows, usage, events, passed, replies)
    requires !WantsTools(llm(k, Conversation(rows)))
    ensures var r, t := llm(k, Conversation(rows)), RunTurn(llm, dispatch, start, text, cap);
            && t.done && t.rows == rows + [FinalRow(r, Add(usage, r.usage))]
            && t.events == events + (Tokens(r.deltas) + [Done(Add(usage, r.usage))])
            && CallsOf(passed + [Conversation(rows)], t.replies, llm, dispatch, start, text)
  {
    CallsNext(passed, replies, llm, dispatch, start, text, Conversation(rows), llm(k, Conversation(rows)));
  }

  lemma AfterCap(llm: Llm, dispatch: Dispatch, start: seq<Row>, text: string, cap: nat, rows: seq<Row>,
                 usage: Usage, events: seq<Event>, passed: seq<seq<Message>>, replies: seq<Reply>)
    requires Underway(llm, dispatch, start, text, cap, cap, rows, usage, events, passed, replies)
    ensures var t := RunTurn(llm, dispatch, start, text, cap);
            !t.done && t.rows == rows && t.events == events + [Error] && CallsOf(passed, t.replies, llm, dispatch, start, text)
  {
    assert replies + [] == replies;
  }

  lemma LogNext(rows: seq<Row>, user: Row, said: seq<Row>, more: seq<Row>)
    ensures (rows + ([user] + said)) + more == rows + ([user] + (said + more))
  {
  }

  /** What is left to do completes what has been done to the whole turn. */
  ghost predicate Continues(whole: Turn, events: seq<Event>, replies: seq<Reply>, rest: Turn) {
    && rest.rows == whole.rows && rest.done == whole.done
    && events + rest.events == whole.events && replies + rest.replies == whole.replies
  }

  lemma ContinuesNext(whole: Turn, events: seq<Event>, replies: seq<Reply>, rest: Turn, r: Reply, next: Turn, more: seq<Event>)
    requires Continues(whole, events, replies, rest)
    requires next.rows == rest.rows && next.done == rest.done
    requires rest.events == more + next.events && rest.replies == [r] + next.replies
    ensures Continues(whole, events + more, replies + [r], next)
  {
    assert (events + more) + next.events == events + (more + next.events);
    assert (replies + [r]) + next.replies == replies + ([r] + next.replies);
  }

  /** The usage row of a day is created at zero when it is missing. */
  function Incremented(count: map<int, nat>, day: int): map<int, nat> {
    count[day := (if day in count then count[day] else 0) + 1]
  }
}
