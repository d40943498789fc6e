/** The Java BeePlan timetable (`Schedule.java`, with the `Course` record it
    holds): a week of five day maps from timeslot to course, the list of
    courses, the greedy placement of each course into the first free cell,
    and the theory hours summed by lecturer.

    Courses are values here. The Java grid and list share `Course` objects,
    so a setter called on a course after placement would show in both; the
    model does not track that sharing. */
module BeeSchedule {
  import opened Base
  import opened Seqs

  datatype CourseType = MANDATORY | ELECTIVE

  /** `Course`: a `null` id, name, lecturer or type is `None`. */
  datatype Course = Course(courseId: Option<string>, name: Option<string>, theoryHours: int, labHours: int,
                           lecturer: Option<string>, kind: Option<CourseType>, labCapacity: int)

  /** `new Course()`: every reference field null, every count zero. */
  const BlankCourse: Course := Course(None, None, 0, 0, None, None, 0)

  /** The six-argument constructor: the lab capacity starts at zero. */
  function NewCourse(courseId: Option<string>, name: Option<string>, theoryHours: int, labHours: int,
                     lecturer: Option<string>, kind: Option<CourseType>): (c: Course)
    ensures c.courseId == courseId && c.name == name && c.lecturer == lecturer && c.kind == kind
    ensures c.theoryHours == theoryHours && c.labHours == labHours && c.labCapacity == 0
  {
    Course(courseId, name, theoryHours, labHours, lecturer, kind, 0)
  }

  /** A reference as Java's string concatenation prints it. */
  function NullText(s: Option<string>): string
  {
    if s.None? then "null" else s.value
  }

  function TypeText(t: Option<CourseType>): string
  {
    match t
    case None => "null"
    case Some(MANDATORY) => "MANDATORY"
    case Some(ELECTIVE) => "ELECTIVE"
  }

  /** `Course.toString`: `id - name (TYPE)`. */
  function CourseText(c: Course): string
  {
    NullText(c.courseId) + " - " + NullText(c.name) + " (" + TypeText(c.kind) + ")"
  }

  /** The days the placement scans, in order. */
  const Days: seq<string> := ["Mon", "Tue", "Wed", "Thu", "Fri"]

  /** `weeklyGrid`: day to timeslot to course; a timeslot mapped to `null`
      is `None`. */
  type Grid = map<string, map<string, Option<Course>>>

  /** All five day maps are present. */
  predicate HasDays(g: Grid)
  {
    forall d :: 0 <= d < |Days| ==> Days[d] in g
  }

  /** A timeslot of a day map is free when it is absent or maps to null. */
  predicate IsFree(day: map<string, Option<Course>>, slot: string)
  {
    slot !in day || day[slot].None?
  }

  /** What a cell holds, `None` for a free or missing cell. */
  function Cell(g: Grid, day: string, slot: string): Option<Course>
  {
    if day in g && slot in g[day] then g[day][slot] else None
  }

  /** The first free timeslot of one day, by index into `timeslots`. */
  function FreeSlot(day: map<string, Option<Course>>, timeslots: seq<string>): (r: Option<nat>)
    ensures r.Some? ==> r.value < |timeslots| && IsFree(day, timeslots[r.value])
    ensures r.Some? ==> forall j :: 0 <= j < r.value ==> !IsFree(day, timeslots[j])
    ensures r.None? ==> forall j :: 0 <= j < |timeslots| ==> !IsFree(day, timeslots[j])
  {
    FirstIndex(timeslots, (s: string) => IsFree(day, s))
  }

  /** The first free cell from day `d` on: days in order, then timeslots
      in order. */
  function FreeCellFrom(g: Grid, timeslots: seq<string>, d: nat): (r: Option<(nat, nat)>)
    requires HasDays(g) && d <= |Days|
    ensures r.Some? ==> d <= r.value.0 < |Days| && r.value.1 < |timeslots|
    ensures r.Some? ==> IsFree(g[Days[r.value.0]], timeslots[r.value.1])
    ensures r.Some? ==> forall e, j :: d <= e < r.value.0 && 0 <= j < |timeslots| ==> !IsFree(g[Days[e]], timeslots[j])
    ensures r.Some? ==> forall j :: 0 <= j < r.value.1 ==> !IsFree(g[Days[r.value.0]], timeslots[j])
    ensures r.None? ==> forall e, j :: d <= e < |Days| && 0 <= j < |timeslots| ==> !IsFree(g[Days[e]], timeslots[j])
    decreases |Days| - d
  {
    if d == |Days| then None
    else
      match FreeSlot(g[Days[d]], timeslots)
      case Some(j) => Some((d, j))
      case None => FreeCellFrom(g, timeslots, d + 1)
  }

  /** One course placed by `placeCoursesAuto`: into the first free cell in
      scan order, or nowhere when every cell is taken. At most one cell
      changes, it was free, and it now holds the course; no taken cell is
      overwritten. */
  function PlaceOne(g: Grid, timeslots: seq<string>, c: Course): (r: Grid)
    requires HasDays(g)
    ensures HasDays(r) && r.Keys == g.Keys
    ensures FreeCellFrom(g, timeslots, 0).None? ==> r == g
    ensures forall day, slot :: Cell(g, day, slot).Some? ==> Cell(r, day, slot) == Cell(g, day, slot)
    ensures forall day, slot :: Cell(r, day, slot) != Cell(g, day, slot) ==>
      && FreeCellFrom(g, timeslots, 0).Some?
      && day == Days[FreeCellFrom(g, timeslots, 0).value.0]
      && slot == timeslots[FreeCellFrom(g, timeslots, 0).value.1]
      && Cell(g, day, slot).None? && Cell(r, day, slot) == Some(c)
  {
    match FreeCellFrom(g, timeslots, 0)
    case None => g
    case Some((d, j)) => g[Days[d] := g[Days[d]][timeslots[j] := Some(c)]]
  }

  /** `placeCoursesAuto`: the courses placed one after another, in list
      order. A taken cell is never overwritten, and every cell that
      changes was free and now holds one of the courses. */
  function PlaceAll(g: Grid, timeslots: seq<string>, cs: seq<Course>): (r: Grid)
    requires HasDays(g)
    ensures HasDays(r) && r.Keys == g.Keys
    ensures forall day, slot :: Cell(g, day, slot).Some? ==> Cell(r, day, slot) == Cell(g, day, slot)
    ensures forall day, slot :: Cell(r, day, slot) != Cell(g, day, slot) ==>
      Cell(g, day, slot).None? && Cell(r, day, slot).Some? && Cell(r, day, slot).value in cs
  {
    if cs == [] then g
    else
      var init := cs[..|cs| - 1];
      var c := cs[|cs| - 1];
      assert cs == init + [c];
      PlaceOne(PlaceAll(g, timeslots, init), timeslots, c)
  }

  /** When every cell of the week is taken, placement changes nothing,
      whatever the courses. */
  lemma {:induction false} FullWeekUnchanged(g: Grid, timeslots: seq<string>, cs: seq<Course>)
    requires HasDays(g) && FreeCellFrom(g, timeslots, 0).None?
    ensures PlaceAll(g, timeslots, cs) == g
  {
    if cs != [] {
      FullWeekUnchanged(g, timeslots, cs[..|cs| - 1]);
    }
  }

  /** Placing one course into a week with a free cell fills exactly that
      cell: the course lands in the first free cell in scan order. */
  lemma PlaceOneFillsFirstFree(g: Grid, timeslots: seq<string>, c: Course)
    requires HasDays(g) && FreeCellFrom(g, timeslots, 0).Some?
    ensures var (d, j) := FreeCellFrom(g, timeslots, 0).value;
      && Cell(g, Days[d], timeslots[j]).None?
      && Cell(PlaceOne(g, timeslots, c), Days[d], timeslots[j]) == Some(c)
  {
  }

  /** The lecturer key of `aggregateTheoryHoursByInstructor`: a null
      lecturer is counted as "UNKNOWN". */
  function LecturerKey(c: Course): string
  {
    if c.lecturer.None? then "UNKNOWN" else c.lecturer.value
  }

  /** `aggregateTheoryHoursByInstructor`: the map the loop builds, course
      by course. */
  function Aggregate(cs: seq<Course>): (m: map<string, int>)
  {
    if cs == [] then map[]
    else
      var init := cs[..|cs| - 1];
      var c := cs[|cs| - 1];
      var m := Aggregate(init);
      var k := LecturerKey(c);
      m[k := (if k in m then m[k] else 0) + c.theoryHours]
  }

  /** The keys of the aggregate are the lecturer keys of the courses. */
  lemma {:induction false} AggregateKeys(cs: seq<Course>)
    ensures forall k :: k in Aggregate(cs) <==> exists c :: c in cs && LecturerKey(c) == k
  {
    if cs != [] {
      var init := cs[..|cs| - 1];
      var c := cs[|cs| - 1];
      assert cs == init + [c];
      AggregateKeys(init);
    }
  }

  /** The theory hours of the courses of one lecturer key. */
  function TheoryOf(cs: seq<Course>, key: string): int
  {
    if cs == [] then 0
    else (if LecturerKey(cs[0]) == key then cs[0].theoryHours else 0) + TheoryOf(cs[1..], key)
  }

  lemma {:induction false} TheoryOfSnoc(cs: seq<Course>, c: Course, key: string)
    ensures TheoryOf(cs + [c], key) == TheoryOf(cs, key) + (if LecturerKey(c) == key then c.theoryHours else 0)
  {
    if cs != [] {
      assert (cs + [c])[1..] == cs[1..] + [c];
      TheoryOfSnoc(cs[1..], c, key);
    }
  }

  lemma {:induction false} TheoryOfAbsent(cs: seq<Course>, key: string)
    requires forall c :: c in cs ==> LecturerKey(c) != key
    ensures TheoryOf(cs, key) == 0
  {
    if cs != [] {
      TheoryOfAbsent(cs[1..], key);
    }
  }

  /** Each lecturer's entry is the sum of the theory hours of that
      lecturer's courses. */
  lemma {:induction false} AggregateSums(cs: seq<Course>)
    ensures forall k :: k in Aggregate(cs) ==> Aggregate(cs)[k] == TheoryOf(cs, k)
  {
    if cs != [] {
      var init := cs[..|cs| - 1];
      var c := cs[|cs| - 1];
      assert cs == init + [c];
      AggregateSums(init);
      forall k | k in Aggregate(cs)
        ensures Aggregate(cs)[k] == TheoryOf(cs, k)
      {
        TheoryOfSnoc(init, c, k);
        if k == LecturerKey(c) && k !in Aggregate(init) {
          AggregateKeys(init);
          TheoryOfAbsent(init, k);
        }
      }
    }
  }

  /** `Schedule`. The `id` and the setters that replace the grid or the
      list wholesale are not modelled. */
  class Schedule {
    var weeklyGrid: Grid
    var courseList: seq<Course>

    ghost predicate Valid()
      reads this
    {
      HasDays(weeklyGrid)
    }

    /** `new Schedule()`: the five weekday maps, all empty, and no
        courses. */
    constructor ()
      ensures Valid()
      ensures weeklyGrid.Keys == {"Mon", "Tue", "Wed", "Thu", "Fri"}
      ensures forall d :: d in weeklyGrid ==> weeklyGrid[d] == map[]
      ensures courseList == []
    {
      weeklyGrid := map["Mon" := map[], "Tue" := map[], "Wed" := map[], "Thu" := map[], "Fri" := map[]];
      courseList := [];
    }

    /** `addCourse`: the course is appended. */
    method AddCourse(c: Course)
      modifies this`courseList
      ensures courseList == old(courseList) + [c]
    {
      courseList := courseList + [c];
    }

    /** `placeCoursesAuto(timeslots)`. */
    method PlaceCoursesAuto(timeslots: seq<string>)
      requires Valid()
      modifies this`weeklyGrid
      ensures Valid()
      ensures weeklyGrid == PlaceAll(old(weeklyGrid), timeslots, courseList)
    {
      var i := 0;
      while i < |courseList|
        invariant 0 <= i <= |courseList|
        invariant Valid()
        invariant weeklyGrid == PlaceAll(old(weeklyGrid), timeslots, courseList[..i])
      {
        assert courseList[..i + 1][..i] == courseList[..i];
        PlaceCourse(courseList[i], timeslots);
        i := i + 1;
      }
      assert courseList[..i] == courseList;
    }

    /** The body of the loop over the courses: the scan over the days,
        stopping at the first day with a free cell. */
    method PlaceCourse(c: Course, timeslots: seq<string>)
      requires Valid()
      modifies this`weeklyGrid
      ensures Valid()
      ensures weeklyGrid == PlaceOne(old(weeklyGrid), timeslots, c)
    {
      ghost var before := weeklyGrid;
      var placed := false;
      var d := 0;
      while d < |Days| && !placed
        invariant 0 <= d <= |Days|
        invariant Valid()
        invariant !placed ==> weeklyGrid == before && FreeCellFrom(before, timeslots, 0) == FreeCellFrom(before, timeslots, d)
        invariant placed ==> weeklyGrid == PlaceOne(before, timeslots, c)
        decreases |Days| - d, if placed then 0 else 1
      {
        placed := PlaceInDay(d, c, timeslots);
        d := d + 1;
      }
    }

    /** The scan over the timeslots of one day: the course goes into the
        first free one, if there is one. */
    method PlaceInDay(d: nat, c: Course, timeslots: seq<string>) returns (placed: bool)
      requires Valid() && d < |Days|
      modifies this`weeklyGrid
      ensures Valid()
      ensures placed <==> FreeSlot(old(weeklyGrid)[Days[d]], timeslots).Some?
      ensures !placed ==> weeklyGrid == old(weeklyGrid)
      ensures placed ==>
        weeklyGrid == old(weeklyGrid)[Days[d] := old(weeklyGrid)[Days[d]][timeslots[FreeSlot(old(weeklyGrid)[Days[d]], timeslots).value] := Some(c)]]
    {
      var dayMap := weeklyGrid[Days[d]];
      placed := false;
      var j := 0;
      while j < |timeslots| && !placed
        invariant 0 <= j <= |timeslots|
        invariant !placed ==> weeklyGrid == old(weeklyGrid) && forall k :: 0 <= k < j ==> !IsFree(dayMap, timeslots[k])
        invariant placed ==> FreeSlot(old(weeklyGrid)[Days[d]], timeslots) == Some(j)
        invariant placed ==> weeklyGrid == old(weeklyGrid)[Days[d] := old(weeklyGrid)[Days[d]][timeslots[j] := Some(c)]]
        decreases |timeslots| - j, if placed then 0 else 1
      {
        var slot := timeslots[j];
        if slot !in dayMap || dayMap[slot].None? {
          assert FreeSlot(dayMap, timeslots) == Some(j);
          weeklyGrid := weeklyGrid[Days[d] := dayMap[slot := Some(c)]];
          placed := true;
        } else {
          j := j + 1;
        }
      }
    }

    /** `detectConflicts`: a placeholder that reports nothing. */
    method DetectConflicts() returns (problems: seq<string>)
      ensures problems == []
    {
      problems := [];
    }

    /** `aggregateTheoryHoursByInstructor`. */
    method AggregateTheoryHoursByInstructor() returns (agg: map<string, int>)
      ensures agg == Aggregate(courseList)
    {
      agg := map[];
      var i := 0;
      while i < |courseList|
        invariant 0 <= i <= |courseList|
        invariant agg == Aggregate(courseList[..i])
      {
        var c := courseList[i];
        assert courseList[..i + 1][..i] == courseList[..i];
        var inst := if c.lecturer.None? then "UNKNOWN" else c.lecturer.value;
        agg := agg[inst := (if inst in agg then agg[inst] else 0) + c.theoryHours];
        i := i + 1;
      }
      assert courseList[..i] == courseList;
    }
  }
}
