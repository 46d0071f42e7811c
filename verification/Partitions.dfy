/** Monthly partitions (backend/alembic/versions/c3a9e5f1b8d2_data_platform.py). */
module Partitions {
  import opened Common

  datatype Date = Date(year: int, month: int, day: int)

  /** The first day of a month that the calendar type can represent. */
  predicate IsMonth(d: Date) {
    1 <= d.year <= 9999 && 1 <= d.month <= 12 && d.day == 1
  }

  function Index(d: Date): int {
    d.year * 12 + (d.month - 1)
  }

  /** `None` is the ValueError of a year outside 1 to 9999; division and remainder round down. */
  function AddMonths(month: Date, count: int): Option<Date> {
    var index := month.year * 12 + (month.month - 1) + count;
    if 1 <= index / 12 <= 9999 then Some(Date(index / 12, index % 12 + 1, 1)) else None
  }

  predicate Before(a: Date, b: Date) {
    a.year < b.year || (a.year == b.year && (a.month < b.month || (a.month == b.month && a.day < b.day)))
  }

  predicate NotAfter(a: Date, b: Date) {
    !Before(b, a)
  }

  /** A day of some month. */
  predicate IsDay(d: Date) {
    1 <= d.year <= 9999 && 1 <= d.month <= 12 && 1 <= d.day <= 31
  }

  lemma AddMonthsIsShift(m: Date, n: int)
    requires IsMonth(m)
    ensures AddMonths(m, n).Some? <==> 12 <= Index(m) + n < 120000
    ensures AddMonths(m, n).Some? ==> IsMonth(AddMonths(m, n).value) && Index(AddMonths(m, n).value) == Index(m) + n
  {
  }

  lemma MonthOfIndex(a: Date, b: Date)
    requires IsMonth(a) && IsMonth(b)
    ensures a == b <==> Index(a) == Index(b)
    ensures Before(a, b) <==> Index(a) < Index(b)
  {
  }

  /** Main result: adding months is an action of the integers. Going on from a month in range is
      going there directly, errors included; zero does nothing; and every step can be undone. */
  lemma MonthsAct(m: Date, a: int, b: int)
    requires IsMonth(m)
    ensures AddMonths(m, 0) == Some(m)
    ensures AddMonths(m, a).Some? ==> AddMonths(AddMonths(m, a).value, b) == AddMonths(m, a + b)
    ensures AddMonths(m, a).Some? ==> AddMonths(AddMonths(m, a).value, -a) == Some(m)
  {
    AddMonthsIsShift(m, a);
    AddMonthsIsShift(m, a + b);
    AddMonthsIsShift(m, 0);
    MonthOfIndex(m, AddMonths(m, 0).value);
    if AddMonths(m, a).Some? {
      var m' := AddMonths(m, a).value;
      AddMonthsIsShift(m', b);
      AddMonthsIsShift(m', -a);
      MonthOfIndex(AddMonths(m', -a).value, m);
    }
  }

  /** A range of days, the end excluded; the partition's name carries the year and month. */
  datatype Partition = Partition(start: Date, end: Date)

  predicate Covers(p: Partition, day: Date) {
    NotAfter(p.start, day) && Before(day, p.end)
  }

  /** The loop of `upgrade`, from `back` months before `current` to `ahead` after it; `None` if
      some month is out of range. */
  method CreatePartitions(current: Date, back: nat, ahead: nat) returns (r: Option<seq<Partition>>)
    requires IsMonth(current)
    ensures r.Some? <==> 12 <= Index(current) - back && Index(current) + ahead + 1 < 120000
    ensures r.Some? ==> |r.value| == back + ahead + 1 && forall i | 0 <= i < |r.value| ::
              && IsMonth(r.value[i].start) && IsMonth(r.value[i].end)
              && Index(r.value[i].start) == Index(current) - back + i
              && Index(r.value[i].end) == Index(current) - back + i + 1
  {
    var created: seq<Partition> := [];
    var first: int := back;
    for offset: int := 0 - first to ahead + 1
      invariant |created| == offset + back
      invariant offset > 0 - first ==> 12 <= Index(current) - back && Index(current) + offset < 120000
      invariant forall i | 0 <= i < |created| ::
                  && IsMonth(created[i].start) && IsMonth(created[i].end)
                  && Index(created[i].start) == Index(current) - back + i
                  && Index(created[i].end) == Index(current) - back + i + 1
    {
      AddMonthsIsShift(current, offset);
      var start := AddMonths(current, offset);
      if start.None? {
        return None;
      }
      AddMonthsIsShift(start.value, 1);
      var end := AddMonths(start.value, 1);
      if end.None? {
        return None;
      }
      created := created + [Partition(start.value, end.value)];
    }
    r := Some(created);
  }

  /** The partitions of consecutive months. */
  ghost predicate Consecutive(ps: seq<Partition>, first: int) {
    forall i | 0 <= i < |ps| ::
      && IsMonth(ps[i].start) && IsMonth(ps[i].end)
      && Index(ps[i].start) == first + i && Index(ps[i].end) == first + i + 1
  }

  lemma CoversItsMonth(p: Partition, day: Date)
    requires IsMonth(p.start) && IsMonth(p.end) && Index(p.end) == Index(p.start) + 1 && IsDay(day)
    ensures Covers(p, day) <==> day.year == p.start.year && day.month == p.start.month
    ensures Covers(p, day) <==> day.year * 12 + (day.month - 1) == Index(p.start)
  {
  }

  /** Main result: the ranges are contiguous, their names differ, and every day from the start of
      the first to the end of the last lies in exactly one of them. */
  lemma PartitionsTile(ps: seq<Partition>, first: int, day: Date)
    requires Consecutive(ps, first) && ps != [] && IsDay(day)
    ensures forall i, j | 0 <= i && j == i + 1 && j < |ps| :: ps[i].end == ps[j].start
    ensures forall i, j | 0 <= i < j < |ps| :: ps[i].start != ps[j].start
    ensures NotAfter(ps[0].start, day) && Before(day, Last(ps).end)
       <==> exists i :: 0 <= i < |ps| && Covers(ps[i], day)
    ensures forall i, j | 0 <= i < |ps| && 0 <= j < |ps| && Covers(ps[i], day) && Covers(ps[j], day) :: i == j
  {
    forall i, j | 0 <= i && j == i + 1 && j < |ps| ensures ps[i].end == ps[j].start {
      MonthOfIndex(ps[i].end, ps[j].start);
    }
    forall i | 0 <= i < |ps| ensures Covers(ps[i], day) <==> day.year * 12 + (day.month - 1) == first + i {
      CoversItsMonth(ps[i], day);
    }
    var k := day.year * 12 + (day.month - 1) - first;
    assert NotAfter(ps[0].start, day) <==> k >= 0;
    assert Before(day, Last(ps).end) <==> k < |ps|;
    if 0 <= k < |ps| {
      assert Covers(ps[k], day);
    }
  }
}
