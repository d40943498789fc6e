/** The rule checks of the Java BeePlan timetable (`Constraint.java`): two
    switchable rules, a capacity rule and a per-lecturer theory limit, each
    giving one message per offending entry.

    Two checks walk the entries of a `HashMap`, whose order Java leaves
    unspecified. That order is a parameter here: a sequence of the map's
    keys, as `Enumerates` says. */
module BeeConstraint {
  import opened Base
  import opened Seqs
  import opened Numbers
  import opened BeeSchedule

  /** `order` lists every key of the map once. */
  ghost predicate Enumerates(order: seq<string>, keys: set<string>)
  {
    && (forall i, j :: 0 <= i < j < |order| ==> order[i] != order[j])
    && (forall k :: k in order <==> k in keys)
  }

  /** The messages of a loop over the entries of `m` in `order`: one
      `line(key, value)` for each entry whose value passes `keep`. */
  function KeyLines<V>(m: map<string, V>, order: seq<string>, keep: V -> bool, line: (string, V) -> string)
    : (r: seq<string>)
    ensures |r| <= |order|
  {
    if order == [] then []
    else
      var init := order[..|order| - 1];
      var k := order[|order| - 1];
      KeyLines(m, init, keep, line) + (if k in m && keep(m[k]) then [line(k, m[k])] else [])
  }

  lemma KeyLinesSnoc<V>(m: map<string, V>, order: seq<string>, i: nat, keep: V -> bool,
                        line: (string, V) -> string)
    requires i < |order|
    ensures KeyLines(m, order[..i + 1], keep, line) == KeyLines(m, order[..i], keep, line)
      + (if order[i] in m && keep(m[order[i]]) then [line(order[i], m[order[i]])] else [])
  {
    assert order[..i + 1][..i] == order[..i];
  }

  /** Every kept entry has its line, and every line is that of a kept
      entry. */
  lemma {:induction false} KeyLinesCover<V>(m: map<string, V>, order: seq<string>, keep: V -> bool,
                                             line: (string, V) -> string)
    ensures forall k :: k in order && k in m && keep(m[k]) ==> line(k, m[k]) in KeyLines(m, order, keep, line)
    ensures forall x :: x in KeyLines(m, order, keep, line) ==>
      exists k :: k in order && k in m && keep(m[k]) && x == line(k, m[k])
  {
    if order != [] {
      var init := order[..|order| - 1];
      var k := order[|order| - 1];
      assert order == init + [k];
      KeyLinesCover(m, init, keep, line);
    }
  }

  /** The keys of `order` whose entries pass `keep`. */
  function Kept<V>(m: map<string, V>, order: seq<string>, keep: V -> bool): set<string>
  {
    set k | k in order && k in m && keep(m[k])
  }

  /** Over an order without repeats, there is exactly one message per kept
      entry. */
  lemma {:induction false} KeyLinesCount<V>(m: map<string, V>, order: seq<string>, keep: V -> bool,
                                             line: (string, V) -> string)
    requires forall i, j :: 0 <= i < j < |order| ==> order[i] != order[j]
    ensures |KeyLines(m, order, keep, line)| == |Kept(m, order, keep)|
  {
    if order != [] {
      var init := order[..|order| - 1];
      var k := order[|order| - 1];
      assert order == init + [k];
      KeyLinesCount(m, init, keep, line);
      assert k !in init by {
        forall i | 0 <= i < |init|
          ensures init[i] != k
        {
          assert init[i] == order[i];
        }
      }
      if k in m && keep(m[k]) {
        assert Kept(m, order, keep) == Kept(m, init, keep) + {k};
      } else {
        assert Kept(m, order, keep) == Kept(m, init, keep);
      }
    }
  }

  predicate IsPlaced(v: Option<Course>)
  {
    v.Some?
  }

  /** "Placement on Friday at <slot>: <course>". */
  function FridayMessage(slot: string, v: Option<Course>): string
  {
    "Placement on Friday at " + slot + ": " + (if v.Some? then CourseText(v.value) else "null")
  }

  /** `checkFridayBlock` with the Friday entries walked in `order`. */
  function FridayProblems(enabled: bool, grid: Grid, order: seq<string>): (r: seq<string>)
    ensures !enabled || "Fri" !in grid ==> r == []
  {
    if !enabled || "Fri" !in grid then [] else KeyLines(grid["Fri"], order, IsPlaced, FridayMessage)
  }

  /** The taken timeslots of a day. */
  function Taken(day: map<string, Option<Course>>): set<string>
  {
    set k | k in day && day[k].Some?
  }

  /** With the rule on, there is one message per taken Friday cell, and
      each taken cell has its message. */
  lemma FridayCount(grid: Grid, order: seq<string>)
    requires "Fri" in grid && Enumerates(order, grid["Fri"].Keys)
    ensures |FridayProblems(true, grid, order)| == |Taken(grid["Fri"])|
    ensures forall k :: k in grid["Fri"] && grid["Fri"][k].Some? ==>
      FridayMessage(k, grid["Fri"][k]) in FridayProblems(true, grid, order)
  {
    var friday := grid["Fri"];
    KeyLinesCount(friday, order, IsPlaced, FridayMessage);
    KeyLinesCover(friday, order, IsPlaced, FridayMessage);
    assert Kept(friday, order, IsPlaced) == Taken(friday);
  }

  predicate LabWithoutTheory(c: Course)
  {
    c.labHours > 0 && c.theoryHours == 0
  }

  function LabMessage(c: Course): string
  {
    "Course " + NullText(c.courseId) + " has lab but no theory block to place before lab."
  }

  /** `checkLabAfterTheory`: with the rule on, the message of each course
      with lab hours and no theory hours, in list order. */
  function LabProblems(enabled: bool, cs: seq<Course>): (r: seq<string>)
    ensures !enabled ==> r == []
    ensures |r| <= |cs|
  {
    if !enabled then [] else Map(Filter(cs, LabWithoutTheory), LabMessage)
  }

  /** With the rule on, every course with lab hours and no theory hours
      has its message, and every message is that of such a course. */
  lemma LabProblemsCover(cs: seq<Course>)
    ensures forall c :: c in cs && LabWithoutTheory(c) ==> LabMessage(c) in LabProblems(true, cs)
    ensures forall x :: x in LabProblems(true, cs) ==> exists c :: c in cs && LabWithoutTheory(c) && x == LabMessage(c)
  {
    MapFilterCovers(cs, LabWithoutTheory, LabMessage);
  }

  predicate OverCapacity(c: Course)
  {
    c.labHours > 0 && c.labCapacity > 40
  }

  function CapacityMessage(c: Course): string
  {
    "Lab capacity exceeded for " + NullText(c.courseId) + " (" + IntText(c.labCapacity) + ")"
  }

  /** `checkCapacity`, whatever the switches: the message of each course
      with lab hours and a lab capacity above 40, in list order. */
  function CapacityProblems(cs: seq<Course>): (r: seq<string>)
    ensures |r| <= |cs|
  {
    Map(Filter(cs, OverCapacity), CapacityMessage)
  }

  /** Every over-capacity lab course has its message, and every message is
      that of such a course. */
  lemma CapacityProblemsCover(cs: seq<Course>)
    ensures forall c :: c in cs && OverCapacity(c) ==> CapacityMessage(c) in CapacityProblems(cs)
    ensures forall x :: x in CapacityProblems(cs) ==> exists c :: c in cs && OverCapacity(c) && x == CapacityMessage(c)
  {
    MapFilterCovers(cs, OverCapacity, CapacityMessage);
  }

  predicate OverFour(hours: int)
  {
    hours > 4
  }

  function InstructorMessage(key: string, hours: int): string
  {
    "Instructor " + key + " exceeds 4 theory hours (total: " + IntText(hours) + ")"
  }

  /** `checkInstructorLimit` with the aggregate walked in `order`. */
  function InstructorProblems(cs: seq<Course>, order: seq<string>): seq<string>
  {
    KeyLines(Aggregate(cs), order, OverFour, InstructorMessage)
  }

  /** The lecturer keys whose courses hold more than four theory hours in
      all. */
  function OverLimit(cs: seq<Course>): set<string>
  {
    set k | k in Aggregate(cs) && TheoryOf(cs, k) > 4
  }

  /** One message per lecturer whose courses hold more than four theory
      hours in all. */
  lemma InstructorCount(cs: seq<Course>, order: seq<string>)
    requires Enumerates(order, Aggregate(cs).Keys)
    ensures |InstructorProblems(cs, order)| == |OverLimit(cs)|
  {
    var agg := Aggregate(cs);
    AggregateSums(cs);
    KeyLinesCount(agg, order, OverFour, InstructorMessage);
    var over := OverLimit(cs);
    forall k | k in agg
      ensures k in order && (OverFour(agg[k]) <==> TheoryOf(cs, k) > 4)
    {
    }
    assert Kept(agg, order, OverFour) == over;
  }

  /** Each lecturer whose courses hold more than four theory hours gets the
      message with that total. */
  lemma InstructorOverLimit(cs: seq<Course>, order: seq<string>, c: Course)
    requires Enumerates(order, Aggregate(cs).Keys)
    requires c in cs && TheoryOf(cs, LecturerKey(c)) > 4
    ensures InstructorMessage(LecturerKey(c), TheoryOf(cs, LecturerKey(c))) in InstructorProblems(cs, order)
  {
    var agg := Aggregate(cs);
    var k := LecturerKey(c);
    AggregateKeys(cs);
    assert k in agg;
    AggregateSums(cs);
    KeyLinesCover(agg, order, OverFour, InstructorMessage);
  }

  /** `runAll`: the four checks, in order. */
  function AllProblems(enabled: (bool, bool), s: (Grid, seq<Course>), fridayOrder: seq<string>,
                       instructorOrder: seq<string>): (r: seq<string>)
    ensures r == [] <==>
      && FridayProblems(enabled.0, s.0, fridayOrder) == []
      && LabProblems(enabled.1, s.1) == []
      && CapacityProblems(s.1) == []
      && InstructorProblems(s.1, instructorOrder) == []
  {
    FridayProblems(enabled.0, s.0, fridayOrder) + LabProblems(enabled.1, s.1)
      + CapacityProblems(s.1) + InstructorProblems(s.1, instructorOrder)
  }

  /** `Constraint`: the two rule switches. */
  class Constraint {
    var fridayExamBlock: bool
    var labAfterTheory: bool

    /** Both rules start switched on. */
    constructor ()
      ensures fridayExamBlock && labAfterTheory
    {
      fridayExamBlock := true;
      labAfterTheory := true;
    }

    method SetFridayExamBlock(on: bool)
      modifies this`fridayExamBlock
      ensures fridayExamBlock == on
    {
      fridayExamBlock := on;
    }

    method SetLabAfterTheory(on: bool)
      modifies this`labAfterTheory
      ensures labAfterTheory == on
    {
      labAfterTheory := on;
    }

    /** `checkFridayBlock(schedule)`, the Friday entries visited in
        `order`, which lists each Friday timeslot once: with the rule on,
        one message per taken Friday cell. */
    method CheckFridayBlock(schedule: Schedule, order: seq<string>) returns (problems: seq<string>)
      requires "Fri" in schedule.weeklyGrid ==> Enumerates(order, schedule.weeklyGrid["Fri"].Keys)
      ensures problems == FridayProblems(fridayExamBlock, schedule.weeklyGrid, order)
      ensures !fridayExamBlock || "Fri" !in schedule.weeklyGrid ==> problems == []
      ensures fridayExamBlock && "Fri" in schedule.weeklyGrid ==>
        && |problems| == |Taken(schedule.weeklyGrid["Fri"])|
        && forall k :: k in schedule.weeklyGrid["Fri"] && schedule.weeklyGrid["Fri"][k].Some? ==>
             FridayMessage(k, schedule.weeklyGrid["Fri"][k]) in problems
    {
      problems := [];
      if !fridayExamBlock {
        return;
      }
      var grid := schedule.weeklyGrid;
      if "Fri" in grid {
        var friday := grid["Fri"];
        var i := 0;
        while i < |order|
          invariant 0 <= i <= |order|
          invariant problems == KeyLines(friday, order[..i], IsPlaced, FridayMessage)
        {
          var key := order[i];
          KeyLinesSnoc(friday, order, i, IsPlaced, FridayMessage);
          if key in friday && friday[key].Some? {
            assert IsPlaced(friday[key]);
            problems := problems + [FridayMessage(key, friday[key])];
          }
          assert problems == KeyLines(friday, order[..i + 1], IsPlaced, FridayMessage);
          i := i + 1;
        }
        assert order[..i] == order;
        FridayCount(grid, order);
      }
    }

    /** `checkLabAfterTheory(schedule)`. */
    method CheckLabAfterTheory(schedule: Schedule) returns (problems: seq<string>)
      ensures problems == LabProblems(labAfterTheory, schedule.courseList)
    {
      problems := [];
      if !labAfterTheory {
        return;
      }
      var cs := schedule.courseList;
      var i := 0;
      while i < |cs|
        invariant 0 <= i <= |cs|
        invariant problems == Map(Filter(cs[..i], LabWithoutTheory), LabMessage)
      {
        var c := cs[i];
        MapFilterSnoc(cs, i, LabWithoutTheory, LabMessage);
        if c.labHours > 0 && c.theoryHours == 0 {
          problems := problems + [LabMessage(c)];
        }
        assert problems == Map(Filter(cs[..i + 1], LabWithoutTheory), LabMessage);
        i := i + 1;
      }
      assert cs[..i] == cs;
    }

    /** `checkCapacity(schedule)`. */
    method CheckCapacity(schedule: Schedule) returns (problems: seq<string>)
      ensures problems == CapacityProblems(schedule.courseList)
    {
      problems := [];
      var cs := schedule.courseList;
      var i := 0;
      while i < |cs|
        invariant 0 <= i <= |cs|
        invariant problems == Map(Filter(cs[..i], OverCapacity), CapacityMessage)
      {
        var c := cs[i];
        MapFilterSnoc(cs, i, OverCapacity, CapacityMessage);
        if c.labHours > 0 && c.labCapacity > 40 {
          problems := problems + [CapacityMessage(c)];
        }
        assert problems == Map(Filter(cs[..i + 1], OverCapacity), CapacityMessage);
        i := i + 1;
      }
      assert cs[..i] == cs;
    }

    /** `checkInstructorLimit(schedule)`, the aggregate visited in
        `order`, which lists each lecturer key once: one message per
        lecturer with more than four theory hours in all. */
    method CheckInstructorLimit(schedule: Schedule, order: seq<string>) returns (problems: seq<string>)
      requires Enumerates(order, Aggregate(schedule.courseList).Keys)
      ensures problems == InstructorProblems(schedule.courseList, order)
      ensures |problems| == |OverLimit(schedule.courseList)|
      ensures forall c :: c in schedule.courseList && TheoryOf(schedule.courseList, LecturerKey(c)) > 4 ==>
        InstructorMessage(LecturerKey(c), TheoryOf(schedule.courseList, LecturerKey(c))) in problems
    {
      problems := [];
      var theoryPerInstructor := schedule.AggregateTheoryHoursByInstructor();
      var i := 0;
      while i < |order|
        invariant 0 <= i <= |order|
        invariant problems == KeyLines(theoryPerInstructor, order[..i], OverFour, InstructorMessage)
      {
        var key := order[i];
        KeyLinesSnoc(theoryPerInstructor, order, i, OverFour, InstructorMessage);
        if key in theoryPerInstructor && theoryPerInstructor[key] > 4 {
          assert OverFour(theoryPerInstructor[key]);
          problems := problems + [InstructorMessage(key, theoryPerInstructor[key])];
        }
        assert problems == KeyLines(theoryPerInstructor, order[..i + 1], OverFour, InstructorMessage);
        i := i + 1;
      }
      assert order[..i] == order;
      InstructorCount(schedule.courseList, order);
      forall c | c in schedule.courseList && TheoryOf(schedule.courseList, LecturerKey(c)) > 4
        ensures InstructorMessage(LecturerKey(c), TheoryOf(schedule.courseList, LecturerKey(c))) in problems
      {
        InstructorOverLimit(schedule.courseList, order, c);
      }
    }

    /** `runAll(schedule)`. */
    method RunAll(schedule: Schedule, fridayOrder: seq<string>, instructorOrder: seq<string>)
      returns (all: seq<string>)
      requires "Fri" in schedule.weeklyGrid ==> Enumerates(fridayOrder, schedule.weeklyGrid["Fri"].Keys)
      requires Enumerates(instructorOrder, Aggregate(schedule.courseList).Keys)
      ensures all == AllProblems((fridayExamBlock, labAfterTheory), (schedule.weeklyGrid, schedule.courseList),
                                 fridayOrder, instructorOrder)
      ensures |all| ==
        (if fridayExamBlock && "Fri" in schedule.weeklyGrid then |Taken(schedule.weeklyGrid["Fri"])| else 0)
        + |LabProblems(labAfterTheory, schedule.courseList)| + |CapacityProblems(schedule.courseList)|
        + |OverLimit(schedule.courseList)|
    {
      var friday := CheckFridayBlock(schedule, fridayOrder);
      var lab := CheckLabAfterTheory(schedule);
      var capacity := CheckCapacity(schedule);
      var instructor := CheckInstructorLimit(schedule, instructorOrder);
      all := friday + lab + capacity + instructor;
    }
  }
}
