/** Loading a thread back: backend/app/services/advisor/chat.py sorts its messages by
    `created_at`, which backend/app/models/advisor.py fills with the time the transaction
    started. A turn is one transaction, so all its messages carry one time, and their order
    among themselves is open. */
module ChatOrder {
  import opened Common
  import opened ChatLoop

  datatype Stamped = Stamped(at: int, row: Row)

  function Stamps(rows: seq<Row>, at: int): seq<Stamped> {
    seq(|rows|, i requires 0 <= i < |rows| => Stamped(at, rows[i]))
  }

  function RowsOf(stored: seq<Stamped>): seq<Row> {
    seq(|stored|, i requires 0 <= i < |stored| => stored[i].row)
  }

  ghost predicate InOrder(stored: seq<Stamped>) {
    forall i, j | 0 <= i < j < |stored| :: stored[i].at <= stored[j].at
  }

  /** A list that the query may return: the stored messages, sorted by time. */
  ghost predicate Loads(loaded: seq<Stamped>, stored: seq<Stamped>) {
    multiset(loaded) == multiset(stored) && InOrder(loaded)
  }

  function Times(stored: seq<Stamped>): seq<int> {
    if stored == [] then [] else [stored[0].at] + Times(stored[1..])
  }

  /** The messages of one time, in order. */
  function At(stored: seq<Stamped>, t: int): seq<Row> {
    if stored == [] then [] else (if stored[0].at == t then [stored[0].row] else []) + At(stored[1..], t)
  }

  // ---------------------------------------------------------------- two loads of one list

  lemma {:induction false} TimesOfAppend(a: seq<Stamped>, b: seq<Stamped>)
    ensures Times(a + b) == Times(a) + Times(b)
  {
    if a == [] {
      assert a + b == b;
    } else {
      assert (a + b)[1..] == a[1..] + b;
      TimesOfAppend(a[1..], b);
    }
  }

  lemma {:induction false} AtOfAppend(a: seq<Stamped>, b: seq<Stamped>, t: int)
    ensures At(a + b, t) == At(a, t) + At(b, t)
  {
    if a == [] {
      assert a + b == b;
    } else {
      assert (a + b)[1..] == a[1..] + b && (a + b)[0] == a[0];
      AtOfAppend(a[1..], b, t);
      var first, rest, more := if a[0].at == t then [a[0].row] else [], At(a[1..], t), At(b, t);
      assert first + (rest + more) == (first + rest) + more;
    }
  }

  lemma {:induction false} TimesAt(stored: seq<Stamped>)
    ensures |Times(stored)| == |stored| && forall i | 0 <= i < |stored| :: Times(stored)[i] == stored[i].at
  {
    if stored != [] {
      TimesAt(stored[1..]);
    }
  }

  /** Where a value of `a` stands in a rearrangement `b` of it. */
  lemma Taken<T>(a: seq<T>, b: seq<T>) returns (left: seq<T>, right: seq<T>)
    requires a != [] && multiset(a) == multiset(b)
    ensures b == left + [a[0]] + right && multiset(left + right) == multiset(a[1..])
  {
    assert a == [a[0]] + a[1..];
    assert a[0] in multiset(b);
    var i :| 0 <= i < |b| && b[i] == a[0];
    left, right := b[..i], b[i + 1..];
    assert b == left + [a[0]] + right;
    assert multiset(b) == multiset(left) + multiset{a[0]} + multiset(right);
    assert multiset(left + right) == multiset(left) + multiset(right) == multiset(b) - multiset{a[0]};
    assert multiset(a) == multiset{a[0]} + multiset(a[1..]);
  }

  lemma {:induction false} SameTimesBag(a: seq<Stamped>, b: seq<Stamped>)
    requires multiset(a) == multiset(b)
    ensures multiset(Times(a)) == multiset(Times(b))
  {
    if a == [] {
      assert |multiset(b)| == |b|;
    } else {
      var left, right := Taken(a, b);
      var first := [a[0]];
      SameTimesBag(a[1..], left + right);
      TimesOfAppend(left, right);
      TimesOfAppend(left + first, right);
      TimesOfAppend(left, first);
      assert Times(first) == [a[0].at];
    }
  }

  lemma {:induction false} SamePart(a: seq<Stamped>, b: seq<Stamped>, t: int)
    requires multiset(a) == multiset(b)
    ensures multiset(At(a, t)) == multiset(At(b, t))
  {
    if a == [] {
      assert |multiset(b)| == |b|;
    } else {
      var left, right := Taken(a, b);
      var first := [a[0]];
      SamePart(a[1..], left + right, t);
      AtOfAppend(left, right, t);
      AtOfAppend(left + first, right, t);
      AtOfAppend(left, first, t);
      assert At(first, t) == if a[0].at == t then [a[0].row] else [];
    }
  }

  ghost predicate Ascends(a: seq<int>) {
    forall i, j | 0 <= i < j < |a| :: a[i] <= a[j]
  }

  lemma LeastFirst(a: seq<int>, b: seq<int>)
    requires Ascends(a) && Ascends(b) && multiset(a) == multiset(b) && a != []
    ensures b != [] && a[0] == b[0]
  {
    assert |multiset(a)| == |a| && |multiset(b)| == |b|;
    assert a[0] in multiset(b) && b[0] in multiset(a);
    var i :| 0 <= i < |b| && b[i] == a[0];
    var j :| 0 <= j < |a| && a[j] == b[0];
  }

  lemma DropFirst(a: seq<int>)
    requires a != []
    ensures multiset(a[1..]) == multiset(a) - multiset{a[0]}
  {
    assert a == [a[0]] + a[1..];
  }

  lemma {:induction false} SortedAlike(a: seq<int>, b: seq<int>)
    requires Ascends(a) && Ascends(b) && multiset(a) == multiset(b)
    ensures a == b
  {
    if a == [] {
      assert |multiset(b)| == |b|;
    } else {
      LeastFirst(a, b);
      DropFirst(a);
      DropFirst(b);
      SortedAlike(a[1..], b[1..]);
      assert a == [a[0]] + a[1..] && b == [b[0]] + b[1..];
    }
  }

  /** Two lists hold the same messages in the same order, time by time. */
  ghost predicate SameParts(a: seq<Stamped>, b: seq<Stamped>) {
    forall t :: At(a, t) == At(b, t)
  }

  /** They hold the same messages, time by time, in some order. */
  ghost predicate AlikeParts(a: seq<Stamped>, b: seq<Stamped>) {
    forall t :: multiset(At(a, t)) == multiset(At(b, t))
  }

  lemma {:induction false} AtDetermines(a: seq<Stamped>, b: seq<Stamped>)
    requires |a| == |b| && forall i | 0 <= i < |a| :: a[i].at == b[i].at
    requires SameParts(a, b)
    ensures a == b
  {
    if a != [] {
      HeadOfAt(a, b, a[0].at);
      forall t ensures At(a[1..], t) == At(b[1..], t) {
        HeadOfAt(a, b, t);
      }
      AtDetermines(a[1..], b[1..]);
      assert a == [a[0]] + a[1..] && b == [b[0]] + b[1..];
    }
  }

  lemma HeadOfAt(a: seq<Stamped>, b: seq<Stamped>, t: int)
    requires a != [] && b != [] && a[0].at == b[0].at && At(a, t) == At(b, t)
    ensures a[0].at == t ==> a[0] == b[0]
    ensures At(a[1..], t) == At(b[1..], t)
  {
    if a[0].at == t {
      assert At(a, t)[0] == a[0].row && At(b, t)[0] == b[0].row;
      assert At(a, t)[1..] == At(a[1..], t) && At(b, t)[1..] == At(b[1..], t);
    } else {
      assert [] + At(a[1..], t) == At(a[1..], t) && [] + At(b[1..], t) == At(b[1..], t);
    }
  }

  lemma SameTimes(loaded: seq<Stamped>, stored: seq<Stamped>)
    requires InOrder(stored) && Loads(loaded, stored)
    ensures |loaded| == |stored| && forall i | 0 <= i < |stored| :: loaded[i].at == stored[i].at
  {
    SameTimesBag(loaded, stored);
    TimesAt(loaded);
    TimesAt(stored);
    SortedAlike(Times(loaded), Times(stored));
  }

  /** Whatever the query returns, the messages of each time stand where they stood, rearranged
      among themselves; and it is the log itself exactly if ties keep the order of insertion. */
  lemma LoadAgreesByTime(loaded: seq<Stamped>, stored: seq<Stamped>)
    requires InOrder(stored) && Loads(loaded, stored)
    ensures |loaded| == |stored| && forall i | 0 <= i < |stored| :: loaded[i].at == stored[i].at
    ensures AlikeParts(loaded, stored)
    ensures loaded == stored <==> SameParts(loaded, stored)
  {
    forall t ensures multiset(At(loaded, t)) == multiset(At(stored, t)) {
      SamePart(loaded, stored, t);
    }
    SameTimes(loaded, stored);
    if SameParts(loaded, stored) {
      AtDetermines(loaded, stored);
    }
  }

  // ---------------------------------------------------------------- when the order is determined

  /** Only equal messages share a time. */
  ghost predicate Untied(stored: seq<Stamped>) {
    forall i, j | 0 <= i < j < |stored| && stored[i].at == stored[j].at :: stored[i] == stored[j]
  }

  lemma SwappedLoads(stored: seq<Stamped>, i: nat, j: nat)
    requires InOrder(stored) && i < j < |stored| && stored[i].at == stored[j].at
    ensures Loads(stored[i := stored[j]][j := stored[i]], stored)
  {
  }

  lemma LoadIsDetermined(stored: seq<Stamped>)
    requires InOrder(stored)
    ensures (forall loaded | Loads(loaded, stored) :: loaded == stored) <==> Untied(stored)
  {
    if Untied(stored) {
      forall loaded | Loads(loaded, stored) ensures loaded == stored {
        LoadAgreesByTime(loaded, stored);
        forall i | 0 <= i < |stored| ensures loaded[i] == stored[i] {
          assert loaded[i] in multiset(stored);
          var j :| 0 <= j < |stored| && stored[j] == loaded[i];
        }
      }
    }
    if forall loaded | Loads(loaded, stored) :: loaded == stored {
      forall i, j | 0 <= i < j < |stored| && stored[i].at == stored[j].at ensures stored[i] == stored[j] {
        SwappedLoads(stored, i, j);
        var swapped := stored[i := stored[j]][j := stored[i]];
        assert swapped == stored && swapped[j] == stored[i];
      }
    }
  }

  // ---------------------------------------------------------------- runs

  /** A turn: what was asked, when its transaction started, and what its query happened to return. */
  datatype Timed = Timed(ask: Ask, at: int, loaded: seq<Stamped>)

  /** The messages a turn adds to the history it loaded. */
  function Added(turn: Timed): seq<Row> {
    [UserRow(turn.ask.text)] + Said(After(RowsOf(turn.loaded), turn.ask).replies, 0, ZERO, turn.ask.dispatch)
  }

  function Stored(stored: seq<Stamped>, turns: seq<Timed>): seq<Stamped>
    decreases |turns|
  {
    if turns == [] then stored else Stored(stored + Stamps(Added(turns[0]), turns[0].at), turns[1..])
  }

  /** Each turn starts after the one before, and loads the messages stored by then. */
  ghost predicate Happens(stored: seq<Stamped>, turns: seq<Timed>)
    decreases |turns|
  {
    turns != [] ==>
      && Loads(turns[0].loaded, stored)
      && (forall s <- stored :: s.at < turns[0].at)
      && Happens(stored + Stamps(Added(turns[0]), turns[0].at), turns[1..])
  }

  /** The turn as `RunTurn` has it, on the history that was loaded. */
  lemma AddedByTurn(turn: Timed)
    ensures After(RowsOf(turn.loaded), turn.ask).rows == RowsOf(turn.loaded) + Added(turn)
  {
    TurnAppends(turn.ask.llm, turn.ask.dispatch, RowsOf(turn.loaded), turn.ask.text, turn.ask.cap);
  }

  /** A turn adds its question alone if it makes no call, and else an assistant message after it. */
  lemma AddedShape(turn: Timed)
    ensures Added(turn)[0].role == User
    ensures turn.ask.cap == 0 ==> |Added(turn)| == 1
    ensures turn.ask.cap > 0 ==> |Added(turn)| > 1 && Added(turn)[1].role == Assistant
  {
    var replies := After(RowsOf(turn.loaded), turn.ask).replies;
    HowRoundsEnd(turn.ask.llm, turn.ask.dispatch, RowsOf(turn.loaded) + [UserRow(turn.ask.text)], ZERO, 0, turn.ask.cap);
    if turn.ask.cap > 0 {
      assert replies != [];
      var said := Said(replies, 0, ZERO, turn.ask.dispatch);
      assert said != [] && said[0].role == Assistant;
    }
  }

  lemma TurnTies(stored: seq<Stamped>, turn: Timed)
    requires InOrder(stored) && forall s <- stored :: s.at < turn.at
    ensures var next := stored + Stamps(Added(turn), turn.at);
            InOrder(next) && (Untied(next) <==> Untied(stored) && turn.ask.cap == 0)
  {
    AddedShape(turn);
    MoreTies(stored, Added(turn), turn.at);
  }

  lemma MoreTies(stored: seq<Stamped>, added: seq<Row>, at: int)
    requires InOrder(stored) && forall s <- stored :: s.at < at
    requires |added| == 1 || (|added| > 1 && added[0].role != added[1].role)
    ensures var next := stored + Stamps(added, at);
            InOrder(next) && (Untied(next) <==> Untied(stored) && |added| == 1)
  {
    var next, n := stored + Stamps(added, at), |stored|;
    assert forall i | 0 <= i < n :: next[i] == stored[i] && stored[i] in stored;
    assert forall i | n <= i < |next| :: next[i] == Stamped(at, added[i - n]);
    if |added| > 1 {
      assert next[n].at == next[n + 1].at && next[n].row.role != next[n + 1].row.role;
    }
    if Untied(next) {
      assert forall i, j | 0 <= i < j < n && stored[i].at == stored[j].at :: next[i] == next[j];
    }
  }

  lemma {:induction false} RunTies(stored: seq<Stamped>, turns: seq<Timed>)
    requires InOrder(stored) && Happens(stored, turns)
    ensures InOrder(Stored(stored, turns))
    ensures Untied(Stored(stored, turns)) <==> Untied(stored) && forall i | 0 <= i < |turns| :: turns[i].ask.cap == 0
    decreases |turns|
  {
    if turns != [] {
      var next, rest := stored + Stamps(Added(turns[0]), turns[0].at), turns[1..];
      TurnTies(stored, turns[0]);
      RunTies(next, rest);
      assert forall i | 0 < i < |turns| :: turns[i] == rest[i - 1];
      assert forall i | 0 <= i < |rest| :: rest[i] == turns[i + 1];
    }
  }

  /** Main result: after any run on any history, whatever its turns were given to read, a load has
      the turns in their order, each with its own messages in some order. */
  lemma {:induction false} LoadKeepsTurns(start: seq<Stamped>, turns: seq<Timed>, loaded: seq<Stamped>)
    requires InOrder(start) && Happens(start, turns) && Loads(loaded, Stored(start, turns))
    ensures var stored := Stored(start, turns);
            && |loaded| == |stored| && (forall i | 0 <= i < |stored| :: loaded[i].at == stored[i].at)
            && AlikeParts(loaded, stored) && (loaded == stored <==> SameParts(loaded, stored))
  {
    RunTies(start, turns);
    LoadAgreesByTime(loaded, Stored(start, turns));
  }

  /** The order of a thread is determined if and only if its history is and no turn ever called
      the model. */
  lemma {:induction false} OrderAfterRun(start: seq<Stamped>, turns: seq<Timed>)
    requires InOrder(start) && Happens(start, turns)
    ensures (forall loaded | Loads(loaded, Stored(start, turns)) :: loaded == Stored(start, turns))
       <==> Untied(start) && forall i | 0 <= i < |turns| :: turns[i].ask.cap == 0
  {
    RunTies(start, turns);
    LoadIsDetermined(Stored(start, turns));
  }

  /** A thread of the program before its first turn: the brief, stored earlier. */
  function Begun(at: int, brief: string, usage: Usage): seq<Stamped> {
    [Stamped(at, Brief(brief, usage))]
  }

  /** Main result: the order of a thread begun by a brief is determined if and only if no turn
      ever called the model. */
  lemma {:induction false} OrderIsDetermined(at: int, brief: string, usage: Usage, turns: seq<Timed>)
    requires Happens(Begun(at, brief, usage), turns)
    ensures var stored := Stored(Begun(at, brief, usage), turns);
            (forall loaded | Loads(loaded, stored) :: loaded == stored) <==> forall i | 0 <= i < |turns| :: turns[i].ask.cap == 0
  {
    OrderAfterRun(Begun(at, brief, usage), turns);
  }

  /** So even after one turn, in a log that alternates, the query may return the answer before the
      question, right after the brief. */
  lemma {:induction false} AnswerBeforeQuestion(at: int, brief: string, usage: Usage, turn: Timed) returns (loaded: seq<Stamped>)
    requires Happens(Begun(at, brief, usage), [turn]) && turn.ask.cap > 0
    ensures var stored := Stored(Begun(at, brief, usage), [turn]);
            && Alternates(RowsOf(stored))
            && Loads(loaded, stored) && !Alternates(RowsOf(loaded))
  {
    var start := Begun(at, brief, usage);
    FirstTurn(start, turn);
    FirstLoad(start[0], turn.loaded);
    AddedByTurn(turn);
    AddedShape(turn);
    assert RowsOf(start) == [Brief(brief, usage)];
    TurnRoles(turn.ask.llm, turn.ask.dispatch, RowsOf(start), turn.ask.text, turn.ask.cap);
    assert RowsOf(start + Stamps(Added(turn), turn.at)) == RowsOf(start) + Added(turn);
    assert start[0] in start;
    loaded := Exchanged(start[0], Added(turn), turn.at);
  }

  lemma FirstTurn(start: seq<Stamped>, turn: Timed)
    ensures Stored(start, [turn]) == start + Stamps(Added(turn), turn.at)
  {
    assert [turn][1..] == [];
    assert Stored(start + Stamps(Added(turn), turn.at), []) == start + Stamps(Added(turn), turn.at);
  }

  lemma FirstLoad(only: Stamped, loaded: seq<Stamped>)
    requires Loads(loaded, [only])
    ensures loaded == [only]
  {
    assert |multiset(loaded)| == |loaded| && |loaded| == 1;
    assert loaded[0] in multiset([only]);
  }

  lemma Exchanged(first: Stamped, added: seq<Row>, at: int) returns (loaded: seq<Stamped>)
    requires |added| > 1 && first.row.role == added[1].role && first.at < at
    ensures Loads(loaded, [first] + Stamps(added, at)) && !Alternates(RowsOf(loaded))
  {
    var stored := [first] + Stamps(added, at);
    assert stored[1] == Stamped(at, added[0]) && stored[2] == Stamped(at, added[1]);
    SwappedLoads(stored, 1, 2);
    loaded := stored[1 := stored[2]][2 := stored[1]];
    assert RowsOf(loaded)[0] == first.row && RowsOf(loaded)[1] == added[1];
  }
}
