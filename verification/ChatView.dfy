/** The bubbles shown for a stored conversation (`deriveChatMessages` in
    frontend/components/conseiller/advisor-view.tsx): tool exchanges have no bubble of their own,
    their tool names are shown on the bubble that follows. */
module ChatView {
  import opened Common
  import opened JsText
  import opened ChatLoop

  datatype Bubble = Bubble(role: Role, text: string, tools: seq<string>)

  datatype View = View(bubbles: seq<Bubble>, pending: seq<string>)

  const EMPTY := View([], [])

  function Names(uses: seq<Block>): seq<string>
    requires forall b <- uses :: b.ToolUse?
  {
    if uses == [] then [] else Names(Init(uses)) + [Last(uses).name]
  }

  function ToolNames(row: Row): seq<string> {
    ToolUsesSound(row.blocks);
    Names(ToolUses(row.blocks))
  }

  predicate HasResult(blocks: seq<Block>) {
    exists b <- blocks :: b.ToolResult?
  }

  predicate Blank(text: string) {
    Trim(text) == ""
  }

  /** A message with a bubble of its own. */
  predicate Shown(row: Row) {
    ToolUses(row.blocks) == [] && !HasResult(row.blocks) && !Blank(row.text)
  }

  /** The tool names of a list of messages, in order. */
  function AllNames(rows: seq<Row>): seq<string> {
    if rows == [] then [] else AllNames(Init(rows)) + ToolNames(Last(rows))
  }

  function ShownRows(rows: seq<Row>): seq<Row> {
    if rows == [] then [] else ShownRows(Init(rows)) + if Shown(Last(rows)) then [Last(rows)] else []
  }

  /** Number of messages up to the last one that is shown. */
  function UpToLastShown(rows: seq<Row>): (n: nat)
    ensures n <= |rows|
  {
    if rows == [] then 0 else if Shown(Last(rows)) then |rows| else UpToLastShown(Init(rows))
  }

  function AllTools(bubbles: seq<Bubble>): seq<string> {
    if bubbles == [] then [] else AllTools(Init(bubbles)) + Last(bubbles).tools
  }

  // ---------------------------------------------------------------- derivation

  function Seen(v: View, row: Row): View {
    if ToolUses(row.blocks) != [] then v.(pending := v.pending + ToolNames(row))
    else if HasResult(row.blocks) || Blank(row.text) then v
    else View(v.bubbles + [Bubble(row.role, row.text, v.pending)], [])
  }

  function Derived(v: View, rows: seq<Row>): View {
    if rows == [] then v else Seen(Derived(v, Init(rows)), Last(rows))
  }

  method DeriveChatMessages(rows: seq<Row>) returns (out: seq<Bubble>)
    ensures out == Derived(EMPTY, rows).bubbles
    ensures |out| == |ShownRows(rows)|
    ensures forall i | 0 <= i < |out| :: out[i].role == ShownRows(rows)[i].role && out[i].text == ShownRows(rows)[i].text
    ensures AllTools(out) == AllNames(rows[..UpToLastShown(rows)])
  {
    out := [];
    var pendingTools := [];
    for i := 0 to |rows|
      invariant View(out, pendingTools) == Derived(EMPTY, rows[..i])
    {
      var m := rows[i];
      assert Init(rows[..i + 1]) == rows[..i];
      var toolUses := ToolUses(m.blocks);
      if toolUses != [] {
        pendingTools := pendingTools + ToolNames(m);
      } else if !HasResult(m.blocks) && !Blank(m.text) {
        out := out + [Bubble(m.role, m.text, pendingTools)];
        pendingTools := [];
      }
    }
    assert rows[..|rows|] == rows;
    ToolsConserved(rows);
    OneBubbleEach(rows);
  }

  /** Main result: the tools shown are, in order and without loss or repetition, the tool uses
      of all messages up to the last one shown; those after it are still pending. */
  lemma {:induction false} ToolsConserved(rows: seq<Row>)
    ensures var v, n := Derived(EMPTY, rows), UpToLastShown(rows);
            AllTools(v.bubbles) == AllNames(rows[..n]) && v.pending == AllNames(rows[n..])
  {
    if rows != [] {
      ToolsConserved(Init(rows));
      var row, before := Last(rows), Derived(EMPTY, Init(rows));
      var n := UpToLastShown(Init(rows));
      if Shown(row) {
        ShownRowView(before, row);
        NamesSplit(Init(rows), n);
        NamesOfAllPlain(rows);
      } else {
        HiddenRowView(before, row);
        NamesOfLonger(rows, n);
      }
    }
  }

  lemma NamesSplit(rows: seq<Row>, n: nat)
    requires n <= |rows|
    ensures AllNames(rows) == AllNames(rows[..n]) + AllNames(rows[n..])
  {
    var a, b := rows[..n], rows[n..];
    assert rows == a + b;
    NamesOfAppend(a, b);
  }

  lemma NamesOfAllPlain(rows: seq<Row>)
    requires rows != [] && ToolUses(Last(rows).blocks) == []
    ensures AllNames(rows[..|rows|]) == AllNames(Init(rows)) && AllNames(rows[|rows|..]) == []
  {
    NamesOfPlainRow(Last(rows));
    assert rows[..|rows|] == rows && rows[|rows|..] == [];
    assert AllNames(Init(rows)) + [] == AllNames(Init(rows));
  }

  lemma NamesOfLonger(rows: seq<Row>, n: nat)
    requires rows != [] && n < |rows|
    ensures rows[..n] == Init(rows)[..n]
    ensures AllNames(rows[n..]) == AllNames(Init(rows)[n..]) + ToolNames(Last(rows))
  {
    assert Init(rows[n..]) == Init(rows)[n..] && Last(rows[n..]) == Last(rows);
  }

  lemma NamesOfPlainRow(row: Row)
    requires ToolUses(row.blocks) == []
    ensures ToolNames(row) == []
  {
  }

  lemma ShownRowView(v: View, row: Row)
    requires Shown(row)
    ensures Seen(v, row) == View(v.bubbles + [Bubble(row.role, row.text, v.pending)], [])
    ensures AllTools(Seen(v, row).bubbles) == AllTools(v.bubbles) + v.pending
  {
    assert Init(v.bubbles + [Bubble(row.role, row.text, v.pending)]) == v.bubbles;
  }

  lemma HiddenRowView(v: View, row: Row)
    requires !Shown(row)
    ensures Seen(v, row) == v.(pending := v.pending + ToolNames(row))
  {
    if ToolUses(row.blocks) == [] {
      NamesOfPlainRow(row);
      assert v.pending + [] == v.pending;
    }
  }

  /** Bubbles and messages to show correspond one to one. */
  lemma {:induction false} OneBubbleEach(rows: seq<Row>)
    ensures var bubbles := Derived(EMPTY, rows).bubbles;
            && |bubbles| == |ShownRows(rows)|
            && forall i | 0 <= i < |bubbles| ::
                 bubbles[i].role == ShownRows(rows)[i].role && bubbles[i].text == ShownRows(rows)[i].text
  {
    if rows != [] {
      OneBubbleEach(Init(rows));
      if Shown(Last(rows)) {
        ShownRowView(Derived(EMPTY, Init(rows)), Last(rows));
      } else {
        HiddenRowView(Derived(EMPTY, Init(rows)), Last(rows));
      }
    }
  }

  lemma {:induction false} NamesOfAppend(a: seq<Row>, b: seq<Row>)
    ensures AllNames(a + b) == AllNames(a) + AllNames(b)
  {
    if b == [] {
      assert a + b == a;
      assert AllNames(a) + [] == AllNames(a);
    } else {
      NamesOfAppend(a, Init(b));
      assert Init(a + b) == a + Init(b) && Last(a + b) == Last(b);
      assert (AllNames(a) + AllNames(Init(b))) + ToolNames(Last(b)) == AllNames(a) + (AllNames(Init(b)) + ToolNames(Last(b)));
    }
  }

  lemma {:induction false} DerivedOfAppend(v: View, a: seq<Row>, b: seq<Row>)
    ensures Derived(v, a + b) == Derived(Derived(v, a), b)
  {
    if b == [] {
      assert a + b == a;
    } else {
      DerivedOfAppend(v, a, Init(b));
      assert Init(a + b) == a + Init(b);
    }
  }

  // ---------------------------------------------------------------- the view of whole turns

  /** A message without text has no bubble; its tools are kept for later. */
  lemma SilentRowView(v: View, row: Row)
    requires row.text == ""
    ensures Derived(v, [row]) == v.(pending := v.pending + AllNames([row]))
  {
    assert Trim("") == "";
    assert Init([row]) == [];
    HiddenRowView(v, row);
    assert [] + ToolNames(row) == ToolNames(row);
  }

  lemma ExchangeView(v: View, k: nat, r: Reply, dispatch: Dispatch)
    ensures Derived(v, Exchange(k, r, dispatch)) == v.(pending := v.pending + AllNames(Exchange(k, r, dispatch)))
  {
    var asked, answered := Exchange(k, r, dispatch)[0], Exchange(k, r, dispatch)[1];
    assert Exchange(k, r, dispatch) == [asked] + [answered];
    DerivedOfAppend(v, [asked], [answered]);
    NamesOfAppend([asked], [answered]);
    SilentRowView(v, asked);
    SilentRowView(Derived(v, [asked]), answered);
    assert (v.pending + AllNames([asked])) + AllNames([answered]) == v.pending + (AllNames([asked]) + AllNames([answered]));
  }

  /** A reply that ends a turn with something to show. */
  predicate ShowsAnswer(r: Reply) {
    !WantsTools(r) && ToolUses(r.content) == [] && !HasResult(r.content) && !Blank(JoinText(r.content))
  }

  /** The replies of a turn end with something to show. */
  predicate EndsShown(replies: seq<Reply>) {
    replies != [] && ShowsAnswer(Last(replies))
  }

  /** The view after the rows of some replies: an answer with all their tools, or none yet. */
  function WithSaid(v: View, replies: seq<Reply>, names: seq<string>): View {
    if EndsShown(replies)
    then View(v.bubbles + [Bubble(Assistant, JoinText(Last(replies).content), v.pending + names)], [])
    else v.(pending := v.pending + names)
  }

  lemma {:induction false} SaidView(v: View, replies: seq<Reply>, k: nat, usage: Usage, dispatch: Dispatch)
    requires forall i | 0 <= i < |replies| - 1 :: WantsTools(replies[i])
    ensures Derived(v, Said(replies, k, usage, dispatch)) == WithSaid(v, replies, AllNames(Said(replies, k, usage, dispatch)))
    decreases |replies|
  {
    if replies == [] {
      assert v.pending + [] == v.pending;
    } else if WantsTools(replies[0]) {
      var first, rest := Exchange(k, replies[0], dispatch), Said(replies[1..], k + 1, Add(usage, replies[0].usage), dispatch);
      var v' := v.(pending := v.pending + AllNames(first));
      ExchangeView(v, k, replies[0], dispatch);
      DerivedOfAppend(v, first, rest);
      SaidView(v', replies[1..], k + 1, Add(usage, replies[0].usage), dispatch);
      NamesOfAppend(first, rest);
      WithExchange(v, replies, AllNames(first), AllNames(rest));
    } else {
      assert |replies| == 1;
      FinalRowView(v, replies[0], Add(usage, replies[0].usage));
    }
  }

  lemma WithExchange(v: View, replies: seq<Reply>, first: seq<string>, rest: seq<string>)
    requires replies != [] && WantsTools(replies[0])
    ensures WithSaid(v.(pending := v.pending + first), replies[1..], rest) == WithSaid(v, replies, first + rest)
  {
    assert (v.pending + first) + rest == v.pending + (first + rest);
  }

  /** A reply that ends a turn is shown with what is pending, or its tools wait too. */
  lemma FinalRowView(v: View, r: Reply, usage: Usage)
    requires !WantsTools(r)
    ensures Derived(v, [FinalRow(r, usage)]) == WithSaid(v, [r], AllNames([FinalRow(r, usage)]))
  {
    var row := FinalRow(r, usage);
    assert Init([row]) == [] && Last([row]) == row && Last([r]) == r;
    assert [] + ToolNames(row) == ToolNames(row);
    if ShowsAnswer(r) {
      NamesOfPlainRow(row);
      assert v.pending + [] == v.pending;
    } else {
      HiddenRowView(v, row);
    }
  }

  lemma UserRowView(v: View, text: string)
    ensures AllNames([UserRow(text)]) == []
    ensures Derived(v, [UserRow(text)]) == if Blank(text) then v else View(v.bubbles + [Bubble(User, text, v.pending)], [])
  {
    var row := UserRow(text);
    assert Init([row]) == [];
    assert Init(row.blocks) == [] && ToolUses(row.blocks) == [];
    assert Names([]) == [];
    assert !HasResult(row.blocks);
  }

  function UserBubble(text: string, tools: seq<string>): seq<Bubble> {
    if Blank(text) then [] else [Bubble(User, text, tools)]
  }

  /** The names of the tools a turn used. */
  function TurnTools(t: Turn, dispatch: Dispatch): seq<string> {
    AllNames(Said(t.replies, 0, ZERO, dispatch))
  }

  /** The view after a turn, given the one before it. */
  function AfterTurn(v: View, text: string, t: Turn, dispatch: Dispatch): View {
    var kept := if Blank(text) then v.pending else [];
    WithSaid(View(v.bubbles + UserBubble(text, v.pending), kept), t.replies, TurnTools(t, dispatch))
  }

  /** Main result: what one turn adds to the view. The question's bubble, unless the question is
      blank, carries whatever was pending. A turn that ends with something to show adds an
      answer carrying exactly the tools of this turn. Any other turn, exhausted or ended by a
      blank reply or by one with tool blocks, adds no answer: its tools are left pending. */
  lemma TurnView(llm: Llm, dispatch: Dispatch, rows: seq<Row>, text: string, cap: nat)
    ensures var t := RunTurn(llm, dispatch, rows, text, cap);
            Derived(EMPTY, t.rows) == AfterTurn(Derived(EMPTY, rows), text, t, dispatch)
  {
    var t, v := RunTurn(llm, dispatch, rows, text, cap), Derived(EMPTY, rows);
    TurnAppends(llm, dispatch, rows, text, cap);
    AllButLastWant(llm, dispatch, rows, text, cap);
    var said := Said(t.replies, 0, ZERO, dispatch);
    DerivedOfAppend(EMPTY, rows, [UserRow(text)] + said);
    DerivedOfAppend(v, [UserRow(text)], said);
    UserRowView(v, text);
    var v' := Derived(v, [UserRow(text)]);
    assert v'.bubbles == v.bubbles + UserBubble(text, v.pending);
    SaidView(v', t.replies, 0, ZERO, dispatch);
  }

  // ---------------------------------------------------------------- the view of whole runs

  /** The view of a run, turn by turn. */
  function Expected(v: View, rows: seq<Row>, asks: seq<Ask>): View
    decreases |asks|
  {
    if asks == [] then v
    else
      var t := After(rows, asks[0]);
      Expected(AfterTurn(v, asks[0].text, t, asks[0].dispatch), t.rows, asks[1..])
  }

  /** Main result: the view of any run is made turn by turn. */
  lemma {:induction false} ViewOfRun(rows: seq<Row>, asks: seq<Ask>)
    ensures Derived(EMPTY, Log(rows, asks)) == Expected(Derived(EMPTY, rows), rows, asks)
    decreases |asks|
  {
    if asks != [] {
      TurnView(asks[0].llm, asks[0].dispatch, rows, asks[0].text, asks[0].cap);
      ViewOfRun(After(rows, asks[0]).rows, asks[1..]);
    }
  }

  /** Every turn ends with something to show. */
  predicate AllAnswer(rows: seq<Row>, asks: seq<Ask>)
    decreases |asks|
  {
    asks != [] ==> EndsShown(After(rows, asks[0]).replies) && AllAnswer(After(rows, asks[0]).rows, asks[1..])
  }

  /** Questions and answers, each answer with the tools of its own turn. */
  function Dialogue(rows: seq<Row>, asks: seq<Ask>): seq<Bubble>
    requires AllAnswer(rows, asks)
    decreases |asks|
  {
    if asks == [] then []
    else
      var t := After(rows, asks[0]);
      UserBubble(asks[0].text, [])
      + [Bubble(Assistant, JoinText(Last(t.replies).content), TurnTools(t, asks[0].dispatch))]
      + Dialogue(t.rows, asks[1..])
  }

  lemma Regroup<T>(a: seq<T>, b: seq<T>, c: seq<T>, d: seq<T>)
    ensures a + b + c + d == a + (b + c + d)
  {
  }

  lemma {:induction false} AnsweredRunView(v: View, rows: seq<Row>, asks: seq<Ask>)
    requires AllAnswer(rows, asks) && v.pending == []
    ensures Expected(v, rows, asks) == View(v.bubbles + Dialogue(rows, asks), [])
    decreases |asks|
  {
    if asks == [] {
      assert v.bubbles + [] == v.bubbles;
    } else {
      var t := After(rows, asks[0]);
      var next := AfterTurn(v, asks[0].text, t, asks[0].dispatch);
      var answer := Bubble(Assistant, JoinText(Last(t.replies).content), TurnTools(t, asks[0].dispatch));
      assert [] + TurnTools(t, asks[0].dispatch) == TurnTools(t, asks[0].dispatch);
      assert next == View(v.bubbles + UserBubble(asks[0].text, []) + [answer], []);
      AnsweredRunView(next, t.rows, asks[1..]);
      Regroup(v.bubbles, UserBubble(asks[0].text, []), [answer], Dialogue(t.rows, asks[1..]));
    }
  }

  /** What is shown of a brief: an assistant's bubble, unless it is blank. */
  function BriefBubble(text: string): seq<Bubble> {
    if Blank(text) then [] else [Bubble(Assistant, text, [])]
  }

  lemma PlainBlocks(text: string)
    ensures var blocks: seq<Block> := [Text(text)]; ToolUses(blocks) == [] && !HasResult(blocks)
  {
    var blocks: seq<Block> := [Text(text)];
    ToolUsesSound(blocks);
    assert forall b <- blocks :: b == Text(text);
  }

  lemma {:induction false} BriefView(brief: string, usage: Usage)
    ensures Derived(EMPTY, [Brief(brief, usage)]) == View(BriefBubble(brief), [])
  {
    var row := Brief(brief, usage);
    PlainBlocks(brief);
    assert Init([row]) == [] && Last([row]) == row;
    assert Derived(EMPTY, []) == EMPTY && Derived(EMPTY, [row]) == Seen(EMPTY, row);
    assert [] + [Bubble(Assistant, brief, [])] == [Bubble(Assistant, brief, [])];
  }

  /** Main result: in a thread whose turns all end with an answer to show, the view is the brief,
      then questions and answers, and each turn's tools sit on that turn's answer. */
  lemma {:induction false} AnsweredRun(brief: string, usage: Usage, asks: seq<Ask>)
    requires AllAnswer([Brief(brief, usage)], asks)
    ensures Derived(EMPTY, Log([Brief(brief, usage)], asks)) == View(BriefBubble(brief) + Dialogue([Brief(brief, usage)], asks), [])
  {
    var start := [Brief(brief, usage)];
    BriefView(brief, usage);
    ViewOfRun(start, asks);
    AnsweredRunView(Derived(EMPTY, start), start, asks);
  }

  // ---------------------------------------------------------------- tools under a question

  /** No question carries tools. */
  ghost predicate QuestionsPlain(bubbles: seq<Bubble>) {
    forall b <- bubbles :: b.role == User ==> b.tools == []
  }

  /** The turn leaves no tools over: it shows an answer, or used none. */
  predicate Settled(t: Turn, dispatch: Dispatch) {
    EndsShown(t.replies) || TurnTools(t, dispatch) == []
  }

  /** Every question to show finds no tools left over: `clear` says that none are so far. */
  predicate NothingLeft(rows: seq<Row>, asks: seq<Ask>, clear: bool)
    decreases |asks|
  {
    asks != [] ==>
      var t, asked := After(rows, asks[0]), !Blank(asks[0].text);
      && (asked ==> clear)
      && NothingLeft(t.rows, asks[1..], EndsShown(t.replies) || ((asked || clear) && TurnTools(t, asks[0].dispatch) == []))
  }

  lemma {:induction false} QuestionsOfTurn(v: View, text: string, t: Turn, dispatch: Dispatch)
    ensures var v', asked := AfterTurn(v, text, t, dispatch), !Blank(text);
            && (QuestionsPlain(v'.bubbles) <==> QuestionsPlain(v.bubbles) && (asked ==> v.pending == []))
            && (v'.pending == [] <==> EndsShown(t.replies) || ((asked || v.pending == []) && TurnTools(t, dispatch) == []))
  {
    var v', question := AfterTurn(v, text, t, dispatch), UserBubble(text, v.pending);
    var answer := if EndsShown(t.replies) then [Last(v'.bubbles)] else [];
    assert v'.bubbles == (v.bubbles + question) + answer;
    MoreQuestions(v.bubbles, question, answer);
  }

  lemma MoreQuestions(bubbles: seq<Bubble>, question: seq<Bubble>, answer: seq<Bubble>)
    requires forall b <- answer :: b.role == Assistant
    ensures QuestionsPlain((bubbles + question) + answer) <==> QuestionsPlain(bubbles) && QuestionsPlain(question)
  {
    var all := (bubbles + question) + answer;
    assert forall b :: b in all <==> b in bubbles || b in question || b in answer;
  }

  lemma {:induction false} QuestionsOfRun(v: View, rows: seq<Row>, asks: seq<Ask>)
    ensures QuestionsPlain(Expected(v, rows, asks).bubbles)
       <==> QuestionsPlain(v.bubbles) && NothingLeft(rows, asks, v.pending == [])
    decreases |asks|
  {
    if asks != [] {
      var t := After(rows, asks[0]);
      QuestionsOfTurn(v, asks[0].text, t, asks[0].dispatch);
      QuestionsOfRun(AfterTurn(v, asks[0].text, t, asks[0].dispatch), t.rows, asks[1..]);
    }
  }

  /** Main result: over any run of a thread, no question's bubble carries the tools of an earlier
      turn if and only if every question to show finds no tools left over. */
  lemma {:induction false} QuestionsCarryNoTools(brief: string, usage: Usage, asks: seq<Ask>)
    ensures QuestionsPlain(Derived(EMPTY, Log([Brief(brief, usage)], asks)).bubbles)
       <==> NothingLeft([Brief(brief, usage)], asks, true)
  {
    var start := [Brief(brief, usage)];
    BriefView(brief, usage);
    ViewOfRun(start, asks);
    QuestionsOfRun(Derived(EMPTY, start), start, asks);
  }

  /** Every turn but perhaps the last leaves no tools over. */
  predicate SettledButLast(rows: seq<Row>, asks: seq<Ask>)
    decreases |asks|
  {
    asks != [] ==>
      (|asks| == 1 || Settled(After(rows, asks[0]), asks[0].dispatch)) && SettledButLast(After(rows, asks[0]).rows, asks[1..])
  }

  ghost predicate NoneBlank(asks: seq<Ask>) {
    forall ask <- asks :: !Blank(ask.text)
  }

  /** When no question is blank, that is: every turn but the last shows an answer or used no tool. */
  lemma {:induction false} NothingLeftIfSettled(rows: seq<Row>, asks: seq<Ask>, clear: bool)
    requires NoneBlank(asks)
    ensures NothingLeft(rows, asks, clear) <==> (asks != [] ==> clear) && SettledButLast(rows, asks)
    decreases |asks|
  {
    if asks != [] {
      var t := After(rows, asks[0]);
      assert asks[0] in asks;
      NothingLeftIfSettled(t.rows, asks[1..], Settled(t, asks[0].dispatch));
    }
  }

  const SCAN := Reply([], [ToolUse("1", "scan", "")], "tool_use", ZERO)

  lemma OneScan(llm: Llm, dispatch: Dispatch, rows: seq<Row>, text: string)
    requires forall n, messages :: llm(n, messages) == SCAN
    ensures var t := RunTurn(llm, dispatch, rows, text, 1);
            t.replies == [SCAN] && TurnTools(t, dispatch) == ["scan"]
  {
    var t := RunTurn(llm, dispatch, rows, text, 1);
    assert Rounds(llm, dispatch, rows + [UserRow(text)] + Exchange(0, SCAN, dispatch), Add(ZERO, ZERO), 1, 1).replies == [];
    assert t.replies == [SCAN] + [] == [SCAN];
    var asked, answered := Exchange(0, SCAN, dispatch)[0], Exchange(0, SCAN, dispatch)[1];
    assert Said([SCAN], 0, ZERO, dispatch) == [asked] + [answered];
    NamesOfAppend([asked], [answered]);
    ScanNames(asked, answered, dispatch);
  }

  lemma ScanNames(asked: Row, answered: Row, dispatch: Dispatch)
    requires [asked, answered] == Exchange(0, SCAN, dispatch)
    ensures AllNames([asked]) == ["scan"] && AllNames([answered]) == []
  {
    var use := ToolUse("1", "scan", "");
    assert [asked, answered][0].blocks == [use];
    assert Init([use]) == [] && ToolUses([use]) == [use];
    assert Names([use]) == [] + ["scan"];
    assert [asked, answered][1].blocks == Results(0, [use], dispatch) == [] + [ToolResult("1", dispatch(0, use))];
    assert Init(answered.blocks) == [] && ToolUses(answered.blocks) == [];
    assert Init([asked]) == [] && Init([answered]) == [];
    assert ToolNames(asked) == ["scan"] && ToolNames(answered) == [];
  }

  lemma ScanView(v: View, text: string, t: Turn, dispatch: Dispatch)
    requires t.replies == [SCAN] && TurnTools(t, dispatch) == ["scan"] && !Blank(text)
    ensures AfterTurn(v, text, t, dispatch) == View(v.bubbles + [Bubble(User, text, v.pending)], ["scan"])
  {
    assert Last(t.replies) == SCAN && !EndsShown(t.replies);
    assert [] + ["scan"] == ["scan"];
  }

  /** A run in which it happens: the first turn spends its one call on a tool, and the second
      question's bubble shows that tool. */
  lemma {:induction false} ToolUnderQuestion(brief: string, usage: Usage, llm: Llm, dispatch: Dispatch, one: string, two: string)
    requires forall n, messages :: llm(n, messages) == SCAN
    requires !Blank(one) && !Blank(two)
    ensures var asks := [Ask(llm, dispatch, one, 1), Ask(llm, dispatch, two, 1)];
            Derived(EMPTY, Log([Brief(brief, usage)], asks))
            == View(BriefBubble(brief) + [Bubble(User, one, [])] + [Bubble(User, two, ["scan"])], ["scan"])
  {
    var start := [Brief(brief, usage)];
    var t := RunTurn(llm, dispatch, start, one, 1);
    var t' := RunTurn(llm, dispatch, t.rows, two, 1);
    TwoTurns(start, Ask(llm, dispatch, one, 1), Ask(llm, dispatch, two, 1));
    BriefView(brief, usage);
    OneScan(llm, dispatch, start, one);
    OneScan(llm, dispatch, t.rows, two);
    TurnView(llm, dispatch, start, one, 1);
    TurnView(llm, dispatch, t.rows, two, 1);
    ScanView(View(BriefBubble(brief), []), one, t, dispatch);
    ScanView(View(BriefBubble(brief) + [Bubble(User, one, [])], ["scan"]), two, t', dispatch);
  }

  lemma TwoTurns(start: seq<Row>, first: Ask, second: Ask)
    ensures Log(start, [first, second]) == After(After(start, first).rows, second).rows
  {
    assert [first, second][1..] == [second] && [second][1..] == [];
    assert Log(After(start, first).rows, [second]) == After(After(start, first).rows, second).rows;
  }
}
