/** The scheduling engine of the second version of BeePlan (`engine.py`):
    three occupancy grids, the placement rules of `is_safe`, `_mark` and
    `_unmark`, and the backtracking search of `solve`.

    The grids are the engine's fields, updated in place; the slots a course
    is given live on the `Course` object, as in the source. What the grids
    hold is stated by functions over a value snapshot (`Grids`), so that the
    rules and the undo of a placement can be proved once, on values. */
module Bee2Engine {
  import opened Base
  import opened Seqs
  import opened Bee2Models

  /** The conflict groups: third-year courses, and the fourth-year
      electives of either department. */
  datatype Group = YEAR_3 | CENG_ELECTIVE | SENG_ELECTIVE

  /** The key of `grid`: `(year, day, hour)`. */
  datatype YearCell = YearCell(year: int, day: int, hour: int)

  /** The key of `instructor_grid`: `(instructor, day, hour)`. */
  datatype TeacherCell = TeacherCell(instructor: string, day: int, hour: int)

  /** The key of `cross_group_grid`: `(day, hour)`. */
  datatype Cell = Cell(day: int, hour: int)

  /** One unit of work of `solve`: an hour of a course, of type "T" or "L". */
  datatype Unit = Unit(course: Course, kind: string)

  /** The three grids at one moment. */
  datatype Grids = Grids(
    years: map<YearCell, Course>,
    teachers: map<TeacherCell, (Course, string)>,
    groups: map<Cell, set<Group>>)

  /** Courses whose groups can be computed: a fourth-year course needs a
      department, and a blank code raises `IndexError` in Python. */
  predicate HasGroups(c: Course)
  {
    c.year != 4 || Department(c.code).Some?
  }

  /** `_get_course_groups`. */
  function CourseGroups(c: Course): (r: set<Group>)
    requires HasGroups(c)
    ensures YEAR_3 in r <==> c.year == 3
    ensures CENG_ELECTIVE in r <==> c.year == 4 && Department(c.code) == Some("CENG")
    ensures SENG_ELECTIVE in r <==> c.year == 4 && Department(c.code) == Some("SENG")
  {
    (if c.year == 3 then {YEAR_3} else {}) +
    (if c.year == 4 && Department(c.code).value == "CENG" then {CENG_ELECTIVE}
     else if c.year == 4 && Department(c.code).value == "SENG" then {SENG_ELECTIVE}
     else {})
  }

  /** The year every course of a group has. */
  function GroupYear(g: Group): int
  {
    if g == YEAR_3 then 3 else 4
  }

  /** The groups recorded at a cell, none when the cell has no entry. */
  function GroupsAt(groups: map<Cell, set<Group>>, cell: Cell): set<Group>
  {
    if cell in groups then groups[cell] else {}
  }

  // ---------------------------------------------------------------- rules

  /** Whether two group sets may not share a cell: a third-year course
      beside an elective, or a CENG elective beside a SENG elective. */
  predicate Clash(a: set<Group>, b: set<Group>)
  {
    || (YEAR_3 in a && (CENG_ELECTIVE in b || SENG_ELECTIVE in b))
    || ((CENG_ELECTIVE in a || SENG_ELECTIVE in a) && YEAR_3 in b)
    || (CENG_ELECTIVE in a && SENG_ELECTIVE in b)
    || (SENG_ELECTIVE in a && CENG_ELECTIVE in b)
  }

  /** The theory hours an instructor already has on a day, over the first
      `upTo` hours. */
  function TheoryCount(teachers: map<TeacherCell, (Course, string)>, instructor: string, day: int, upTo: nat): (n: nat)
    ensures n <= upTo
  {
    if upTo == 0 then 0
    else
      var cell := TeacherCell(instructor, day, upTo - 1);
      TheoryCount(teachers, instructor, day, upTo - 1) + (if cell in teachers && teachers[cell].1 == "T" then 1 else 0)
  }

  /** The theory hours an instructor has on a day, over hours 0..7. */
  function DailyTheory(teachers: map<TeacherCell, (Course, string)>, instructor: string, day: int): nat
  {
    TheoryCount(teachers, instructor, day, 8)
  }

  /** The counting loop of `is_safe`. */
  method DailyTheoryHours(teachers: map<TeacherCell, (Course, string)>, instructor: string, day: int)
    returns (n: nat)
    ensures n == DailyTheory(teachers, instructor, day)
  {
    n := 0;
    var h := 0;
    while h < 8
      invariant 0 <= h <= 8
      invariant n == TheoryCount(teachers, instructor, day, h)
    {
      var cell := TeacherCell(instructor, day, h);
      if cell in teachers && teachers[cell].1 == "T" {
        n := n + 1;
      }
      h := h + 1;
    }
  }

  /** Booking a free instructor cell adds one theory hour to that
      instructor's day when the booking is a theory hour within the hours
      counted, and changes no other count. */
  lemma {:induction false} TheoryCountAdd(teachers: map<TeacherCell, (Course, string)>, cell: TeacherCell, v: (Course, string),
                                          instructor: string, day: int, upTo: nat)
    requires cell !in teachers
    ensures TheoryCount(teachers[cell := v], instructor, day, upTo) ==
      TheoryCount(teachers, instructor, day, upTo)
      + (if cell.instructor == instructor && cell.day == day && 0 <= cell.hour < upTo && v.1 == "T" then 1 else 0)
    decreases upTo
  {
    if upTo > 0 {
      TheoryCountAdd(teachers, cell, v, instructor, day, upTo - 1);
    }
  }

  /** Whether a course already holds a theory slot. */
  predicate HasTheory(held: seq<Slot>)
  {
    exists s :: s in held && s.kind == "T"
  }

  /** `is_safe(course, day, hour, type_)`, in its rule order, for a course
      whose current slots are `held`. */
  function Safe(g: Grids, c: Course, held: seq<Slot>, day: int, hour: int, kind: string): (r: bool)
    requires HasGroups(c)
    ensures r ==> !(day == 4 && (hour == 4 || hour == 5))
    ensures r ==> YearCell(c.year, day, hour) !in g.years
    ensures r ==> TeacherCell(c.instructor, day, hour) !in g.teachers
    ensures r && kind == "T" ==> DailyTheory(g.teachers, c.instructor, day) < 4
    ensures r && kind == "L" && c.theoryHours > 0 ==> HasTheory(held)
    ensures r && c.year == 3 ==>
      CENG_ELECTIVE !in GroupsAt(g.groups, Cell(day, hour)) && SENG_ELECTIVE !in GroupsAt(g.groups, Cell(day, hour))
    ensures r && (CENG_ELECTIVE in CourseGroups(c) || SENG_ELECTIVE in CourseGroups(c)) ==>
      YEAR_3 !in GroupsAt(g.groups, Cell(day, hour))
    ensures r && CENG_ELECTIVE in CourseGroups(c) ==> SENG_ELECTIVE !in GroupsAt(g.groups, Cell(day, hour))
    ensures r && SENG_ELECTIVE in CourseGroups(c) ==> CENG_ELECTIVE !in GroupsAt(g.groups, Cell(day, hour))
    ensures r ==> !Clash(CourseGroups(c), GroupsAt(g.groups, Cell(day, hour)))
  {
    if day == 4 && (hour == 4 || hour == 5) then false
    else if YearCell(c.year, day, hour) in g.years then false
    else if TeacherCell(c.instructor, day, hour) in g.teachers then false
    else if kind == "T" && DailyTheory(g.teachers, c.instructor, day) >= 4 then false
    else if kind == "L" && c.theoryHours > 0 && !HasTheory(held) then false
    else
      var mine := CourseGroups(c);
      var there := GroupsAt(g.groups, Cell(day, hour));
      if mine == {} || there == {} then true
      else if (YEAR_3 in mine && (CENG_ELECTIVE in there || SENG_ELECTIVE in there))
           || ((CENG_ELECTIVE in mine || SENG_ELECTIVE in mine) && YEAR_3 in there) then false
      else if (CENG_ELECTIVE in mine && SENG_ELECTIVE in there) || (SENG_ELECTIVE in mine && CENG_ELECTIVE in there) then false
      else true
  }

  /** The converse: a placement that breaks none of the rules is safe, so
      the early `True` when either group set is empty loses nothing. */
  lemma SafeUnlessRuleBroken(g: Grids, c: Course, held: seq<Slot>, day: int, hour: int, kind: string)
    requires HasGroups(c)
    requires !(day == 4 && (hour == 4 || hour == 5))
    requires YearCell(c.year, day, hour) !in g.years && TeacherCell(c.instructor, day, hour) !in g.teachers
    requires kind == "T" ==> DailyTheory(g.teachers, c.instructor, day) < 4
    requires kind == "L" && c.theoryHours > 0 ==> HasTheory(held)
    requires var there := GroupsAt(g.groups, Cell(day, hour));
      && (c.year == 3 ==> CENG_ELECTIVE !in there && SENG_ELECTIVE !in there)
      && (CENG_ELECTIVE in CourseGroups(c) || SENG_ELECTIVE in CourseGroups(c) ==> YEAR_3 !in there)
      && (CENG_ELECTIVE in CourseGroups(c) ==> SENG_ELECTIVE !in there)
      && (SENG_ELECTIVE in CourseGroups(c) ==> CENG_ELECTIVE !in there)
    ensures Safe(g, c, held, day, hour, kind)
  {
  }

  // ------------------------------------------------------- mark and unmark

  /** The group entry of a cell after `_mark` adds a course's groups. */
  function AddGroups(groups: map<Cell, set<Group>>, cell: Cell, gs: set<Group>): map<Cell, set<Group>>
  {
    if gs == {} then groups else groups[cell := GroupsAt(groups, cell) + gs]
  }

  /** The group entry of a cell after `_unmark` removes a course's groups:
      an entry left empty is deleted, and an absent or empty entry is left
      as it is. */
  function RemoveGroups(groups: map<Cell, set<Group>>, cell: Cell, gs: set<Group>): map<Cell, set<Group>>
  {
    if gs == {} || cell !in groups || groups[cell] == {} then groups
    else if groups[cell] - gs == {} then groups - {cell}
    else groups[cell := groups[cell] - gs]
  }

  /** The grids after `_mark(course, day, hour, type_)`. */
  function MarkGrids(g: Grids, c: Course, day: int, hour: int, kind: string): (r: Grids)
    requires HasGroups(c)
  {
    Grids(g.years[YearCell(c.year, day, hour) := c],
          g.teachers[TeacherCell(c.instructor, day, hour) := (c, kind)],
          AddGroups(g.groups, Cell(day, hour), CourseGroups(c)))
  }

  /** The grids after `_unmark(course, day, hour)`. */
  function UnmarkGrids(g: Grids, c: Course, day: int, hour: int): (r: Grids)
    requires HasGroups(c)
  {
    Grids(g.years - {YearCell(c.year, day, hour)},
          g.teachers - {TeacherCell(c.instructor, day, hour)},
          RemoveGroups(g.groups, Cell(day, hour), CourseGroups(c)))
  }

  /** Whether a slot matches a day and hour. */
  function At(day: int, hour: int): Slot -> bool
  {
    (s: Slot) => s.day == day && s.hour == hour
  }

  /** `assigned_slots` after `_unmark`: the first slot at that day and hour
      removed, if there is one. */
  function DropFirstAt(s: seq<Slot>, day: int, hour: int): (r: seq<Slot>)
  {
    match FirstIndex(s, At(day, hour))
    case None => s
    case Some(i) => s[..i] + s[i + 1..]
  }

  /** No cell holds an empty group set, and every group recorded at a cell
      belongs to a course of the group's year placed there. */
  predicate Backed(g: Grids)
  {
    && (forall cell :: cell in g.groups ==> g.groups[cell] != {})
    && (forall cell, x :: cell in g.groups && x in g.groups[cell] ==> YearCell(GroupYear(x), cell.day, cell.hour) in g.years)
  }

  /** A cell a course can be placed in without losing anything an
      `_unmark` would then delete. */
  predicate Free(g: Grids, c: Course, day: int, hour: int)
    requires HasGroups(c)
  {
    && YearCell(c.year, day, hour) !in g.years
    && TeacherCell(c.instructor, day, hour) !in g.teachers
    && GroupsAt(g.groups, Cell(day, hour)) !! CourseGroups(c)
  }

  lemma MarkKeepsBacked(g: Grids, c: Course, day: int, hour: int, kind: string)
    requires HasGroups(c) && Backed(g)
    ensures Backed(MarkGrids(g, c, day, hour, kind))
  {
    var m := MarkGrids(g, c, day, hour, kind);
    forall cell, x | cell in m.groups && x in m.groups[cell]
      ensures YearCell(GroupYear(x), cell.day, cell.hour) in m.years
    {
      if cell == Cell(day, hour) && x in CourseGroups(c) {
        assert GroupYear(x) == c.year;
      }
    }
  }

  /** A safe placement on consistent grids is free. */
  lemma SafeIsFree(g: Grids, c: Course, held: seq<Slot>, day: int, hour: int, kind: string)
    requires HasGroups(c) && Backed(g) && Safe(g, c, held, day, hour, kind)
    ensures Free(g, c, day, hour)
  {
    var there := GroupsAt(g.groups, Cell(day, hour));
    forall x | x in there
      ensures x !in CourseGroups(c)
    {
      assert YearCell(GroupYear(x), day, hour) in g.years;
    }
  }

  /** `_unmark` undoes `_mark` on a free cell: all three grids are as
      before. */
  lemma UnmarkUndoesMark(g: Grids, c: Course, day: int, hour: int, kind: string)
    requires HasGroups(c) && Backed(g) && Free(g, c, day, hour)
    ensures UnmarkGrids(MarkGrids(g, c, day, hour, kind), c, day, hour) == g
  {
    var cell := Cell(day, hour);
    var gs := CourseGroups(c);
    var after := RemoveGroups(AddGroups(g.groups, cell, gs), cell, gs);
    if gs != {} {
      if cell in g.groups {
        assert (g.groups[cell] + gs) - gs == g.groups[cell];
        assert after == g.groups;
      } else {
        assert (GroupsAt(g.groups, cell) + gs) - gs == {};
        assert after == g.groups;
      }
    }
    assert g.years[YearCell(c.year, day, hour) := c] - {YearCell(c.year, day, hour)} == g.years;
    assert g.teachers[TeacherCell(c.instructor, day, hour) := (c, kind)] - {TeacherCell(c.instructor, day, hour)} == g.teachers;
  }

  /** ... and removes the slot `_mark` appended, when the course had no
      other slot at that day and hour. */
  lemma DropAfterAppend(s: seq<Slot>, day: int, hour: int, kind: string)
    requires forall x :: x in s ==> !(x.day == day && x.hour == hour)
    ensures DropFirstAt(s + [Slot(day, hour, kind)], day, hour) == s
  {
    var t := s + [Slot(day, hour, kind)];
    FirstIndexIs(t, At(day, hour), |s|);
    assert t[..|s|] + t[|s| + 1..] == s;
  }

  // -------------------------------------------------------- fixed courses

  /** The slots `reset` leaves on a course. */
  function ResetValue(c: Course): seq<Slot>
  {
    if c.isFixed then c.fixedSlots else []
  }

  /** The grids after `_mark` with `is_fixed_allocation` on each of the
      slots, in order. */
  function MarkAll(g: Grids, c: Course, slots: seq<Slot>): Grids
    requires HasGroups(c)
  {
    if slots == [] then g
    else
      var last := slots[|slots| - 1];
      MarkGrids(MarkAll(g, c, slots[..|slots| - 1]), c, last.day, last.hour, last.kind)
  }

  /** The grids `reset_grids` builds: every fixed course's fixed slots
      marked, course by course. */
  function FixedGrids(cs: seq<Course>): Grids
    requires forall c :: c in cs ==> HasGroups(c)
  {
    if cs == [] then Grids(map[], map[], map[])
    else
      var last := cs[|cs| - 1];
      var before := FixedGrids(cs[..|cs| - 1]);
      if last.isFixed then MarkAll(before, last, last.fixedSlots) else before
  }

  lemma {:induction false} MarkAllBacked(g: Grids, c: Course, slots: seq<Slot>)
    requires HasGroups(c) && Backed(g)
    ensures Backed(MarkAll(g, c, slots))
    decreases |slots|
  {
    if slots != [] {
      var last := slots[|slots| - 1];
      MarkAllBacked(g, c, slots[..|slots| - 1]);
      MarkKeepsBacked(MarkAll(g, c, slots[..|slots| - 1]), c, last.day, last.hour, last.kind);
    }
  }

  lemma FixedGridsSnoc(cs: seq<Course>, i: nat)
    requires forall c :: c in cs ==> HasGroups(c)
    requires i < |cs|
    ensures FixedGrids(cs[..i + 1]) ==
      if cs[i].isFixed then MarkAll(FixedGrids(cs[..i]), cs[i], cs[i].fixedSlots) else FixedGrids(cs[..i])
  {
    assert cs[..i + 1][..i] == cs[..i];
  }

  lemma {:induction false} FixedGridsBacked(cs: seq<Course>)
    requires forall c :: c in cs ==> HasGroups(c)
    ensures Backed(FixedGrids(cs))
    decreases |cs|
  {
    if cs != [] {
      var last := cs[|cs| - 1];
      FixedGridsBacked(cs[..|cs| - 1]);
      if last.isFixed {
        MarkAllBacked(FixedGrids(cs[..|cs| - 1]), last, last.fixedSlots);
      }
    }
  }

  /** A slot of a course as the grids record it once marked: its year cell
      and its instructor's cell booked, and its groups recorded at the
      cell. */
  predicate Covers(g: Grids, c: Course, s: Slot)
    requires HasGroups(c)
  {
    && YearCell(c.year, s.day, s.hour) in g.years
    && TeacherCell(c.instructor, s.day, s.hour) in g.teachers
    && CourseGroups(c) <= GroupsAt(g.groups, Cell(s.day, s.hour))
  }

  /** Grids `b` keep every cell booked on `a` and every group recorded on
      it. */
  predicate Grows(a: Grids, b: Grids)
  {
    && a.years.Keys <= b.years.Keys
    && a.teachers.Keys <= b.teachers.Keys
    && (forall cell :: cell in a.groups ==> a.groups[cell] <= GroupsAt(b.groups, cell))
  }

  /** ... and keep each booking of `a` with the course it had. */
  predicate Extends(a: Grids, b: Grids)
  {
    && Grows(a, b)
    && (forall k :: k in a.years ==> k in b.years && b.years[k] == a.years[k])
    && (forall k :: k in a.teachers ==> k in b.teachers && b.teachers[k] == a.teachers[k])
  }

  lemma ExtendsItself(g: Grids)
    ensures Extends(g, g)
  {
  }

  /** Every booking on the grids belongs to a fixed course. */
  predicate FixedOwned(g: Grids)
  {
    && (forall k :: k in g.years ==> g.years[k].isFixed)
    && (forall k :: k in g.teachers ==> g.teachers[k].0.isFixed)
  }

  lemma MarkGrows(g: Grids, c: Course, day: int, hour: int, kind: string)
    requires HasGroups(c)
    ensures Grows(g, MarkGrids(g, c, day, hour, kind))
  {
  }

  lemma GrowsTrans(a: Grids, b: Grids, c: Grids)
    requires Grows(a, b) && Grows(b, c)
    ensures Grows(a, c)
  {
    forall cell | cell in a.groups
      ensures a.groups[cell] <= GroupsAt(c.groups, cell)
    {
      if cell in b.groups {
        assert a.groups[cell] <= b.groups[cell];
      }
    }
  }

  lemma GrowsCovers(a: Grids, b: Grids, c: Course, s: Slot)
    requires HasGroups(c) && Grows(a, b) && Covers(a, c, s)
    ensures Covers(b, c, s)
  {
    var cell := Cell(s.day, s.hour);
    if cell in a.groups {
      assert a.groups[cell] <= GroupsAt(b.groups, cell);
    }
  }

  /** Marking slots one after the other keeps what was booked, and leaves
      each of those slots recorded. */
  lemma {:induction false} MarkAllCovers(g: Grids, c: Course, slots: seq<Slot>)
    requires HasGroups(c)
    ensures Grows(g, MarkAll(g, c, slots))
    ensures forall s :: s in slots ==> Covers(MarkAll(g, c, slots), c, s)
    decreases |slots|
  {
    if slots != [] {
      var init := slots[..|slots| - 1];
      var last := slots[|slots| - 1];
      var before := MarkAll(g, c, init);
      var after := MarkAll(g, c, slots);
      MarkAllCovers(g, c, init);
      MarkGrows(before, c, last.day, last.hour, last.kind);
      GrowsTrans(g, before, after);
      assert slots == init + [last];
      forall s | s in slots
        ensures Covers(after, c, s)
      {
        if s in init {
          GrowsCovers(before, after, c, s);
        } else {
          assert GroupsAt(after.groups, Cell(last.day, last.hour)) >= CourseGroups(c);
        }
      }
    }
  }

  lemma {:induction false} MarkAllOwned(g: Grids, c: Course, slots: seq<Slot>)
    requires HasGroups(c) && c.isFixed && FixedOwned(g)
    ensures FixedOwned(MarkAll(g, c, slots))
    decreases |slots|
  {
    if slots != [] {
      MarkAllOwned(g, c, slots[..|slots| - 1]);
    }
  }

  /** The grids `reset_grids` builds record every fixed slot of every fixed
      course, and each of their bookings belongs to a fixed course. */
  lemma {:induction false} FixedGridsHold(cs: seq<Course>)
    requires forall c :: c in cs ==> HasGroups(c)
    ensures FixedOwned(FixedGrids(cs))
    ensures forall c, s :: c in cs && c.isFixed && s in c.fixedSlots ==> Covers(FixedGrids(cs), c, s)
    decreases |cs|
  {
    if cs != [] {
      var init := cs[..|cs| - 1];
      var last := cs[|cs| - 1];
      var before := FixedGrids(init);
      assert cs == init + [last];
      FixedGridsHold(init);
      if last.isFixed {
        MarkAllCovers(before, last, last.fixedSlots);
        MarkAllOwned(before, last, last.fixedSlots);
      }
      forall c, s | c in cs && c.isFixed && s in c.fixedSlots
        ensures Covers(FixedGrids(cs), c, s)
      {
        if c != last {
          assert c in init;
          if last.isFixed {
            GrowsCovers(before, FixedGrids(cs), c, s);
          }
        }
      }
    }
  }

  /** Marking free cells keeps every booking the grids had. */
  lemma ExtendsAfterMark(a: Grids, g: Grids, c: Course, d: int, h: int, kind: string)
    requires HasGroups(c) && Extends(a, g)
    requires YearCell(c.year, d, h) !in g.years && TeacherCell(c.instructor, d, h) !in g.teachers
    ensures Extends(a, MarkGrids(g, c, d, h, kind))
  {
    MarkGrows(g, c, d, h, kind);
    GrowsTrans(a, g, MarkGrids(g, c, d, h, kind));
  }

  /** A course that is not fixed, holding a slot at the cell of a fixed
      slot still recorded on the grids, is of another year than the fixed
      course, has another instructor, and their groups do not clash. */
  lemma HeldClearOfFixed(base: Grids, g: Grids, x: Course, sx: Slot, y: Course, sy: Slot)
    requires HasGroups(x) && HasGroups(y) && !y.isFixed
    requires FixedOwned(base) && Covers(base, x, sx) && Extends(base, g) && Held(y, sy, g)
    requires sx.day == sy.day && sx.hour == sy.hour
    ensures x.year != y.year && x.instructor != y.instructor
    ensures !Clash(CourseGroups(x), CourseGroups(y))
  {
    var cell := Cell(sx.day, sx.hour);
    GrowsCovers(base, g, x, sx);
    assert CourseGroups(x) <= GroupsAt(g.groups, cell);
  }

  // ---------------------------------------------------------- work order

  /** The sort key of `solve`, `(theory_hours + lab_hours, lab_hours)`:
      whether `a` comes no later than `b` in the descending order. */
  predicate AtLeast(a: Course, b: Course)
  {
    a.theoryHours + a.labHours > b.theoryHours + b.labHours
    || (a.theoryHours + a.labHours == b.theoryHours + b.labHours && a.labHours >= b.labHours)
  }

  predicate Descending(s: seq<Course>)
  {
    forall i, j :: 0 <= i < j < |s| ==> AtLeast(s[i], s[j])
  }

  /** Inserts `x` before the first element it is at least as heavy as, so
      that it stays ahead of the equal elements that came after it. */
  function Insert(x: Course, ys: seq<Course>): (r: seq<Course>)
    requires Descending(ys)
    ensures multiset(r) == multiset(ys) + multiset{x}
    ensures Descending(r)
    ensures r != [] && (r[0] == x || (ys != [] && r[0] == ys[0]))
    ensures exists k :: InsertedAt(x, ys, k, r)
  {
    if ys == [] || AtLeast(x, ys[0]) then
      InsertAhead(x, ys);
      [x] + ys
    else
      var rest := Insert(x, ys[1..]);
      InsertBehind(x, ys, rest);
      [ys[0]] + rest
  }

  /** Putting `x` first keeps the list sorted when it is at least as heavy
      as the head. */
  lemma InsertAhead(x: Course, ys: seq<Course>)
    requires Descending(ys) && (ys == [] || AtLeast(x, ys[0]))
    ensures Descending([x] + ys) && InsertedAt(x, ys, 0, [x] + ys)
  {
    forall j | 0 <= j < |ys|
      ensures AtLeast(x, ys[j])
    {
      if j > 0 {
        assert AtLeast(ys[0], ys[j]);
      }
    }
    ConsDescending(x, ys);
    assert [x] + ys == ys[..0] + [x] + ys[0..];
  }

  /** Keeping the head and inserting `x` behind it keeps the list sorted,
      when `x` is lighter than the head. */
  lemma InsertBehind(x: Course, ys: seq<Course>, rest: seq<Course>)
    requires Descending(ys) && ys != [] && !AtLeast(x, ys[0])
    requires multiset(rest) == multiset(ys[1..]) + multiset{x} && Descending(rest)
    requires exists k :: InsertedAt(x, ys[1..], k, rest)
    ensures multiset([ys[0]] + rest) == multiset(ys) + multiset{x}
    ensures Descending([ys[0]] + rest)
    ensures exists k :: InsertedAt(x, ys, k, [ys[0]] + rest)
  {
    assert ys == [ys[0]] + ys[1..];
    HeadLeads(x, ys, rest);
    ConsDescending(ys[0], rest);
    var k :| InsertedAt(x, ys[1..], k, rest);
    InsertedAfterHead(x, ys, k, rest);
  }

  /** The head of a sorted list is at least as heavy as every element of
      its tail with a lighter `x` added. */
  lemma HeadLeads(x: Course, ys: seq<Course>, rest: seq<Course>)
    requires Descending(ys) && ys != [] && !AtLeast(x, ys[0])
    requires multiset(rest) == multiset(ys[1..]) + multiset{x}
    ensures forall j :: 0 <= j < |rest| ==> AtLeast(ys[0], rest[j])
  {
    forall j | 0 <= j < |rest|
      ensures AtLeast(ys[0], rest[j])
    {
      assert rest[j] in multiset(ys[1..]) + multiset{x};
      if rest[j] != x {
        assert rest[j] in ys[1..];
        var k :| 0 <= k < |ys[1..]| && ys[1..][k] == rest[j];
        assert AtLeast(ys[0], ys[k + 1]);
      }
    }
  }

  /** `r` is `ys` with `x` inserted at position `k`, after elements it is
      not at least as heavy as and before the rest. */
  predicate InsertedAt(x: Course, ys: seq<Course>, k: int, r: seq<Course>)
  {
    0 <= k <= |ys| && r == ys[..k] + [x] + ys[k..] && forall j :: 0 <= j < k ==> !AtLeast(x, ys[j])
  }

  lemma InsertedAfterHead(x: Course, ys: seq<Course>, k: int, rest: seq<Course>)
    requires ys != [] && !AtLeast(x, ys[0]) && InsertedAt(x, ys[1..], k, rest)
    ensures InsertedAt(x, ys, k + 1, [ys[0]] + rest)
  {
    assert ys[..k + 1] == [ys[0]] + ys[1..][..k];
    assert ys[k + 1..] == ys[1..][k..];
    forall j | 0 <= j < k + 1
      ensures !AtLeast(x, ys[j])
    {
      if j > 0 {
        assert ys[j] == ys[1..][j - 1];
      }
    }
  }

  lemma ConsDescending(y: Course, rest: seq<Course>)
    requires Descending(rest) && forall j :: 0 <= j < |rest| ==> AtLeast(y, rest[j])
    ensures Descending([y] + rest)
  {
    var r := [y] + rest;
    forall i, j | 0 <= i < j < |r|
      ensures AtLeast(r[i], r[j])
    {
      assert r[j] == rest[j - 1];
      if i > 0 {
        assert r[i] == rest[i - 1];
      }
    }
  }

  /** `to_schedule.sort(key=..., reverse=True)`: a stable sort, heaviest
      first. */
  function ByLoad(cs: seq<Course>): (r: seq<Course>)
    ensures multiset(r) == multiset(cs)
    ensures Descending(r)
  {
    if cs == [] then []
    else
      assert cs == [cs[0]] + cs[1..];
      Insert(cs[0], ByLoad(cs[1..]))
  }

  /** `[c for c in self.courses if not c.is_fixed]`. */
  function Unfixed(cs: seq<Course>): (r: seq<Course>)
    ensures forall c :: c in r ==> c in cs && !c.isFixed
    ensures forall c :: c in cs && !c.isFixed ==> multiset(r)[c] == multiset(cs)[c]
  {
    if cs == [] then []
    else
      assert cs == cs[..|cs| - 1] + [cs[|cs| - 1]];
      Unfixed(cs[..|cs| - 1]) + (if cs[|cs| - 1].isFixed then [] else [cs[|cs| - 1]])
  }

  /** A course's units: its theory hours, then its lab hours (a negative
      count gives none, as `range` does). */
  function UnitsOf(c: Course): seq<Unit>
  {
    seq(Max(0, c.theoryHours), _ => Unit(c, "T")) + seq(Max(0, c.labHours), _ => Unit(c, "L"))
  }

  /** `self.tasks`: the units of the courses, course by course. */
  function Plan(cs: seq<Course>): (r: seq<Unit>)
    ensures forall u :: u in r ==> u.course in cs
  {
    if cs == [] then []
    else
      var r := Plan(cs[..|cs| - 1]) + UnitsOf(cs[|cs| - 1]);
      assert forall u :: u in r ==> u.course in cs by {
        forall u | u in r
          ensures u.course in cs
        {
          if u in Plan(cs[..|cs| - 1]) {
            assert u.course in cs[..|cs| - 1];
          }
        }
      }
      r
  }

  /** The slot types of a course's slots, in order. */
  function Kinds(s: seq<Slot>): (r: seq<string>)
    ensures |r| == |s|
  {
    seq(|s|, i requires 0 <= i < |s| => s[i].kind)
  }

  /** The types of the units of one course, in order. */
  function KindsFor(us: seq<Unit>, c: Course): seq<string>
  {
    if us == [] then []
    else (if us[0].course == c then [us[0].kind] else []) + KindsFor(us[1..], c)
  }

  lemma {:induction false} KindsForConcat(a: seq<Unit>, b: seq<Unit>, c: Course)
    ensures KindsFor(a + b, c) == KindsFor(a, c) + KindsFor(b, c)
    decreases |a|
  {
    if a != [] {
      assert (a + b)[0] == a[0];
      assert (a + b)[1..] == a[1..] + b;
      KindsForConcat(a[1..], b, c);
    } else {
      assert a + b == b;
    }
  }

  lemma {:induction false} KindsForAbsent(us: seq<Unit>, c: Course)
    requires forall u :: u in us ==> u.course != c
    ensures KindsFor(us, c) == []
    decreases |us|
  {
    if us != [] {
      KindsForAbsent(us[1..], c);
    }
  }

  lemma {:induction false} KindsForUniform(n: nat, c: Course, d: Course, kind: string)
    ensures KindsFor(seq(n, _ => Unit(d, kind)), c) == if c == d then seq(n, _ => kind) else []
    decreases n
  {
    if n > 0 {
      var us := seq(n, _ => Unit(d, kind));
      assert us[1..] == seq(n - 1, _ => Unit(d, kind));
      KindsForUniform(n - 1, c, d, kind);
      if c == d {
        assert [kind] + seq(n - 1, _ => kind) == seq(n, _ => kind);
      }
    }
  }

  /** The types `solve` gives a course: its theory hours, then its lab
      hours. */
  function TheoryThenLab(c: Course): seq<string>
  {
    seq(Max(0, c.theoryHours), _ => "T") + seq(Max(0, c.labHours), _ => "L")
  }

  /** A course's own units have its theory types, then its lab types;
      another course's units have none of its types. */
  lemma UnitsKinds(d: Course, c: Course)
    ensures KindsFor(UnitsOf(d), c) == if d == c then TheoryThenLab(c) else []
  {
    KindsForConcat(seq(Max(0, d.theoryHours), _ => Unit(d, "T")), seq(Max(0, d.labHours), _ => Unit(d, "L")), c);
    KindsForUniform(Max(0, d.theoryHours), c, d, "T");
    KindsForUniform(Max(0, d.labHours), c, d, "L");
  }

  /** In the work list of courses that each appear once, a course's units
      are its theory units followed by its lab units. */
  lemma {:induction false} PlanKinds(cs: seq<Course>, c: Course)
    requires multiset(cs)[c] <= 1
    ensures KindsFor(Plan(cs), c) == if c in cs then TheoryThenLab(c) else []
    decreases |cs|
  {
    if cs != [] {
      var init: seq<Course> := cs[..|cs| - 1];
      var last := cs[|cs| - 1];
      assert cs == init + [last];
      assert multiset(cs)[c] == multiset(init)[c] + (if last == c then 1 else 0);
      PlanKinds(init, c);
      KindsForConcat(Plan(init), UnitsOf(last), c);
      UnitsKinds(last, c);
      if last == c {
        assert c !in init;
      }
    }
  }

  /** The bookkeeping of a successful placement: the slot placed for the
      unit at `index`, followed by the slots placed for the units after it. */
  lemma Placed(tasks: seq<Unit>, index: nat, c: Course, before: seq<Slot>, after: seq<Slot>, slot: Slot)
    requires index < |tasks| && tasks[index] == Unit(c, slot.kind)
    requires |before| + 1 <= |after| && after[..|before| + 1] == before + [slot]
    requires Kinds(after[|before| + 1..]) == KindsFor(tasks[index + 1..], c)
    ensures before <= after && Kinds(after[|before|..]) == KindsFor(tasks[index..], c)
  {
    var n := |before|;
    assert after[n..] == [slot] + after[n + 1..];
    assert Kinds(after[n..]) == [slot.kind] + Kinds(after[n + 1..]);
    assert tasks[index..][1..] == tasks[index + 1..];
  }

  lemma KindsForStep(tasks: seq<Unit>, index: nat, c: Course)
    requires index < |tasks|
    ensures KindsFor(tasks[index..], c) ==
      (if tasks[index].course == c then [tasks[index].kind] else []) + KindsFor(tasks[index + 1..], c)
  {
    assert tasks[index..][1..] == tasks[index + 1..];
  }

  /** In the work list `solve` builds, a course of the engine that is not
      fixed and is listed once has its theory units, then its lab units. */
  lemma SolvedKinds(courses: seq<Course>, c: Course)
    requires multiset(courses)[c] == 1 && !c.isFixed
    ensures KindsFor(Plan(ByLoad(Unfixed(courses))), c) == TheoryThenLab(c)
  {
    assert c in courses;
    var order: seq<Course> := ByLoad(Unfixed(courses));
    var counts: multiset<Course> := multiset(order);
    assert counts[c] == 1;
    PlanKinds(order, c);
  }

  /** The loops of `solve` that fill `self.tasks`. */
  method PlanUnits(cs: seq<Course>) returns (units: seq<Unit>)
    ensures units == Plan(cs)
  {
    units := [];
    var i := 0;
    while i < |cs|
      invariant 0 <= i <= |cs|
      invariant units == Plan(cs[..i])
    {
      var c := cs[i];
      assert cs[..i + 1][..i] == cs[..i];
      var k := 0;
      while k < c.theoryHours
        invariant 0 <= k <= Max(0, c.theoryHours)
        invariant units == Plan(cs[..i]) + seq(k, _ => Unit(c, "T"))
      {
        units := units + [Unit(c, "T")];
        k := k + 1;
      }
      var n := 0;
      while n < c.labHours
        invariant 0 <= n <= Max(0, c.labHours)
        invariant units == Plan(cs[..i]) + seq(k, _ => Unit(c, "T")) + seq(n, _ => Unit(c, "L"))
      {
        units := units + [Unit(c, "L")];
        n := n + 1;
      }
      i := i + 1;
    }
    assert cs[..i] == cs;
  }

  /** Every unit of the work list belongs to a course of the engine that
      is not fixed. */
  lemma WorkIsUnfixed(courses: seq<Course>)
    ensures forall u :: u in Plan(ByLoad(Unfixed(courses))) ==> u.course in courses && !u.course.isFixed
  {
    forall u | u in Plan(ByLoad(Unfixed(courses)))
      ensures u.course in courses && !u.course.isFixed
    {
      var counts: multiset<Course> := multiset(Unfixed(courses));
      assert u.course in counts;
    }
  }

  /** A slot the search can choose: days 0..4, hours 0..7, and not the
      Friday exam block. */
  predicate Placeable(s: Slot)
  {
    0 <= s.day < 5 && 0 <= s.hour < 8 && !(s.day == 4 && (s.hour == 4 || s.hour == 5))
  }

  /** A slot a course holds, as the grids record it: one the search can
      choose, with the course's year cell and its instructor's cell booked
      to it with the slot's type, the course's groups recorded at the cell
      and clashing with none recorded there, and, for a theory slot, the
      instructor at most four theory hours that day. */
  predicate Held(c: Course, s: Slot, g: Grids)
    requires HasGroups(c)
  {
    && Placeable(s)
    && YearCell(c.year, s.day, s.hour) in g.years && g.years[YearCell(c.year, s.day, s.hour)] == c
    && TeacherCell(c.instructor, s.day, s.hour) in g.teachers
    && g.teachers[TeacherCell(c.instructor, s.day, s.hour)] == (c, s.kind)
    && CourseGroups(c) <= GroupsAt(g.groups, Cell(s.day, s.hour))
    && !Clash(CourseGroups(c), GroupsAt(g.groups, Cell(s.day, s.hour)))
    && (s.kind == "T" ==> DailyTheory(g.teachers, c.instructor, s.day) <= 4)
  }

  /** Every slot of a course is held. */
  predicate SlotsHeld(c: Course, slots: seq<Slot>, g: Grids)
    requires HasGroups(c)
  {
    forall s :: s in slots ==> Held(c, s, g)
  }

  /** A safe mark leaves every slot already held still held. */
  lemma HeldAfterMark(x: Course, s: Slot, g: Grids, c: Course, held: seq<Slot>, d: int, h: int, kind: string)
    requires HasGroups(x) && HasGroups(c) && Held(x, s, g) && Safe(g, c, held, d, h, kind)
    ensures Held(x, s, MarkGrids(g, c, d, h, kind))
  {
    var m := MarkGrids(g, c, d, h, kind);
    TheoryCountAdd(g.teachers, TeacherCell(c.instructor, d, h), (c, kind), x.instructor, s.day, 8);
    if Cell(s.day, s.hour) == Cell(d, h) {
      var there := GroupsAt(g.groups, Cell(d, h));
      assert CourseGroups(x) <= there;
      assert !Clash(CourseGroups(x), CourseGroups(c)) by {
        assert !Clash(CourseGroups(c), there);
      }
      assert GroupsAt(m.groups, Cell(d, h)) == there + CourseGroups(c);
    }
  }

  /** ... and holds the slot it places. */
  lemma HeldWhenMarked(c: Course, g: Grids, held: seq<Slot>, d: int, h: int, kind: string)
    requires HasGroups(c) && Safe(g, c, held, d, h, kind) && Placeable(Slot(d, h, kind))
    ensures Held(c, Slot(d, h, kind), MarkGrids(g, c, d, h, kind))
  {
    var m := MarkGrids(g, c, d, h, kind);
    TheoryCountAdd(g.teachers, TeacherCell(c.instructor, d, h), (c, kind), c.instructor, d, 8);
    assert GroupsAt(m.groups, Cell(d, h)) == GroupsAt(g.groups, Cell(d, h)) + CourseGroups(c);
  }

  /** A safe mark keeps every course's slots held, and the marked course's
      new slot with them. */
  lemma SlotsHeldAfterMark(c: Course, x: Course, slots: seq<Slot>, g: Grids, held: seq<Slot>, d: int, h: int, kind: string)
    requires HasGroups(c) && HasGroups(x) && SlotsHeld(x, slots, g)
    requires Safe(g, c, held, d, h, kind) && Placeable(Slot(d, h, kind))
    ensures SlotsHeld(x, slots, MarkGrids(g, c, d, h, kind))
    ensures x == c ==> SlotsHeld(x, slots + [Slot(d, h, kind)], MarkGrids(g, c, d, h, kind))
  {
    forall s | s in slots
      ensures Held(x, s, MarkGrids(g, c, d, h, kind))
    {
      HeldAfterMark(x, s, g, c, held, d, h, kind);
    }
    if x == c {
      HeldWhenMarked(c, g, held, d, h, kind);
    }
  }

  /** A course holds no slot at a cell whose year cell is free. */
  lemma NotHeldWhereFree(c: Course, slots: seq<Slot>, g: Grids, d: int, h: int)
    requires HasGroups(c) && SlotsHeld(c, slots, g) && YearCell(c.year, d, h) !in g.years
    ensures forall x :: x in slots ==> !(x.day == d && x.hour == h)
  {
  }

  /** Two different courses holding slots at the same day and hour on the
      same grids are of different years, have different instructors, and
      their groups do not clash. */
  lemma HeldApart(g: Grids, x: Course, y: Course, sx: Slot, sy: Slot)
    requires HasGroups(x) && HasGroups(y) && Held(x, sx, g) && Held(y, sy, g)
    requires x != y && sx.day == sy.day && sx.hour == sy.hour
    ensures x.year != y.year && x.instructor != y.instructor
    ensures !Clash(CourseGroups(x), CourseGroups(y))
  {
  }

  // -------------------------------------------------------------- engine

  /** `SchedulerEngine`. */
  class Engine {
    const courses: seq<Course>
    /** The grids `reset_grids` builds from the fixed courses. */
    ghost const fixed: Grids
    var grid: map<YearCell, Course>
    var instructorGrid: map<TeacherCell, (Course, string)>
    var crossGroupGrid: map<Cell, set<Group>>
    var tasks: seq<Unit>

    ghost function Courses(): set<Course>
    {
      set c | c in courses
    }

    function State(): Grids
      reads this
    {
      Grids(grid, instructorGrid, crossGroupGrid)
    }

    /** Every course has its groups; the work list holds only courses of
        the engine that are not fixed; the grids are consistent and still
        hold every booking and group of the fixed slots; and every slot of a
        course that is not fixed is held on the grids. */
    ghost predicate Valid()
      reads this, Courses()
    {
      && (forall c :: c in courses ==> HasGroups(c))
      && (forall u :: u in tasks ==> u.course in courses && !u.course.isFixed)
      && Backed(State())
      && fixed == FixedGrids(courses)
      && Extends(fixed, State())
      && (forall c :: c in courses && !c.isFixed ==> SlotsHeld(c, c.assignedSlots, State()))
    }

    /** No two different courses that are not fixed hold slots at the same
        day and hour while sharing a year or an instructor, or while their
        groups clash. */
    ghost predicate ConflictFree()
      reads this, Courses()
      requires forall c :: c in courses ==> HasGroups(c)
    {
      forall x, y, sx, sy ::
        x in courses && y in courses && !x.isFixed && !y.isFixed && x != y
        && sx in x.assignedSlots && sy in y.assignedSlots && sx.day == sy.day && sx.hour == sy.hour
        ==> x.year != y.year && x.instructor != y.instructor && !Clash(CourseGroups(x), CourseGroups(y))
    }

    /** No course that is not fixed holds a slot at the day and hour of a
        fixed slot of a fixed course while sharing its year or instructor,
        or while their groups clash. */
    ghost predicate ClearOfFixed()
      reads this, Courses()
      requires forall c :: c in courses ==> HasGroups(c)
    {
      forall x, y, sx, sy ::
        x in courses && y in courses && x.isFixed && !y.isFixed
        && sx in x.fixedSlots && sy in y.assignedSlots && sx.day == sy.day && sx.hour == sy.hour
        ==> x.year != y.year && x.instructor != y.instructor && !Clash(CourseGroups(x), CourseGroups(y))
    }

    /** A consistent engine has no conflicts. */
    lemma ValidConflictFree()
      requires Valid()
      ensures ConflictFree()
    {
      forall x, y, sx, sy |
        x in courses && y in courses && !x.isFixed && !y.isFixed && x != y
        && sx in x.assignedSlots && sy in y.assignedSlots && sx.day == sy.day && sx.hour == sy.hour
        ensures x.year != y.year && x.instructor != y.instructor && !Clash(CourseGroups(x), CourseGroups(y))
      {
        HeldApart(State(), x, y, sx, sy);
      }
    }

    /** ... and keeps clear of the fixed slots. */
    lemma ValidClearOfFixed()
      requires Valid()
      ensures ClearOfFixed()
    {
      FixedGridsHold(courses);
      forall x, y, sx, sy |
        x in courses && y in courses && x.isFixed && !y.isFixed
        && sx in x.fixedSlots && sy in y.assignedSlots && sx.day == sy.day && sx.hour == sy.hour
        ensures x.year != y.year && x.instructor != y.instructor && !Clash(CourseGroups(x), CourseGroups(y))
      {
        HeldClearOfFixed(fixed, State(), x, sx, y, sy);
      }
    }

    /** Every slot of a course that is not fixed is one the search can
        choose, and a theory slot leaves its instructor at most four theory
        hours that day. */
    ghost predicate WithinRules()
      reads this, Courses()
    {
      forall c, s :: c in courses && !c.isFixed && s in c.assignedSlots ==>
      Placeable(s) && (s.kind == "T" ==> DailyTheory(instructorGrid, c.instructor, s.day) <= 4)
    }

    /** A consistent engine keeps to those rules. */
    lemma ValidPlaced()
      requires Valid()
      ensures WithinRules()
    {
      forall c, s | c in courses && !c.isFixed && s in c.assignedSlots
        ensures Placeable(s) && (s.kind == "T" ==> DailyTheory(instructorGrid, c.instructor, s.day) <= 4)
      {
        assert Held(c, s, State());
      }
    }

    /** A consistent engine still holds what `reset_grids` booked. */
    lemma ValidKeepsFixed()
      requires Valid()
      ensures Extends(FixedGrids(courses), State())
    {
    }

    /** `SchedulerEngine(courses)`: the grids as `reset_grids` leaves
        them. */
    constructor (courses: seq<Course>)
      requires forall c :: c in courses ==> HasGroups(c)
      modifies set c | c in courses
      ensures this.courses == courses && tasks == [] && Valid()
      ensures State() == FixedGrids(courses)
      ensures forall c :: c in courses ==> c.assignedSlots == ResetValue(c)
    {
      this.courses := courses;
      fixed := FixedGrids(courses);
      grid := map[];
      instructorGrid := map[];
      crossGroupGrid := map[];
      tasks := [];
      new;
      ResetGrids();
    }

    /** `reset_grids`: empty grids, every course reset, and the fixed
        slots of the fixed courses marked. */
    method ResetGrids()
      requires forall c :: c in courses ==> HasGroups(c)
      requires forall u :: u in tasks ==> u.course in courses && !u.course.isFixed
      requires fixed == FixedGrids(courses)
      modifies this`grid, this`instructorGrid, this`crossGroupGrid, Courses()
      ensures State() == FixedGrids(courses)
      ensures forall c :: c in courses ==> c.assignedSlots == ResetValue(c)
      ensures Valid()
    {
      grid := map[];
      instructorGrid := map[];
      crossGroupGrid := map[];
      var i := 0;
      while i < |courses|
        invariant 0 <= i <= |courses|
        invariant State() == FixedGrids(courses[..i])
        invariant forall j :: 0 <= j < i ==> courses[j].assignedSlots == ResetValue(courses[j])
      {
        FixedGridsSnoc(courses, i);
        ResetOne(courses[i]);
        i := i + 1;
      }
      assert courses[..i] == courses;
      ResetValid();
    }

    /** The grids `reset_grids` builds, with every course reset, make a
        consistent engine. */
    lemma ResetValid()
      requires forall c :: c in courses ==> HasGroups(c)
      requires forall u :: u in tasks ==> u.course in courses && !u.course.isFixed
      requires fixed == FixedGrids(courses) && State() == fixed
      requires forall c :: c in courses ==> c.assignedSlots == ResetValue(c)
      ensures Valid()
    {
      FixedGridsBacked(courses);
      ExtendsItself(fixed);
    }

    /** One pass of the loop of `reset_grids`: the course reset and, when
        it is fixed, its fixed slots marked. */
    method ResetOne(c: Course)
      requires HasGroups(c)
      modifies this`grid, this`instructorGrid, this`crossGroupGrid, c`assignedSlots
      ensures c.assignedSlots == ResetValue(c)
      ensures State() == if c.isFixed then MarkAll(old(State()), c, c.fixedSlots) else old(State())
    {
      c.Reset();
      if c.isFixed {
        MarkFixed(c);
      }
    }

    /** The inner loop of `reset_grids`: each fixed slot of a course
        marked as a fixed allocation, which leaves the course's own slots
        alone. */
    method MarkFixed(c: Course)
      requires HasGroups(c)
      modifies this`grid, this`instructorGrid, this`crossGroupGrid, c`assignedSlots
      ensures State() == MarkAll(old(State()), c, c.fixedSlots)
      ensures c.assignedSlots == old(c.assignedSlots)
    {
      var k := 0;
      while k < |c.fixedSlots|
        invariant 0 <= k <= |c.fixedSlots|
        invariant State() == MarkAll(old(State()), c, c.fixedSlots[..k])
        invariant c.assignedSlots == old(c.assignedSlots)
      {
        var s := c.fixedSlots[k];
        assert c.fixedSlots[..k + 1][..k] == c.fixedSlots[..k];
        Mark(c, s.day, s.hour, s.kind, true);
        k := k + 1;
      }
      assert c.fixedSlots[..k] == c.fixedSlots;
    }

    /** `_mark(course, day, hour, type_, is_fixed_allocation)`. */
    method Mark(c: Course, day: int, hour: int, kind: string, isFixedAllocation: bool)
      requires HasGroups(c)
      modifies this`grid, this`instructorGrid, this`crossGroupGrid, c`assignedSlots
      ensures State() == MarkGrids(old(State()), c, day, hour, kind)
      ensures isFixedAllocation ==> c.assignedSlots == old(c.assignedSlots)
      ensures !isFixedAllocation ==> c.assignedSlots == old(c.assignedSlots) + [Slot(day, hour, kind)]
      ensures (&& old(Valid()) && c in courses && !c.isFixed && !isFixedAllocation && Placeable(Slot(day, hour, kind))
               && Safe(old(State()), c, old(c.assignedSlots), day, hour, kind)) ==> Valid()
    {
      ghost var before := State();
      ghost var slots := c.assignedSlots;
      grid := grid[YearCell(c.year, day, hour) := c];
      instructorGrid := instructorGrid[TeacherCell(c.instructor, day, hour) := (c, kind)];
      var groups := CourseGroups(c);
      if groups != {} {
        var slotGroups := GroupsAt(crossGroupGrid, Cell(day, hour));
        crossGroupGrid := crossGroupGrid[Cell(day, hour) := slotGroups + groups];
      }
      if !isFixedAllocation {
        c.assignedSlots := c.assignedSlots + [Slot(day, hour, kind)];
      }
      if old(Valid()) && c in courses && !c.isFixed && !isFixedAllocation && Placeable(Slot(day, hour, kind))
         && Safe(before, c, slots, day, hour, kind) {
        MarkedValid(c, before, slots, day, hour, kind);
      }
    }

    /** The engine is consistent again after a safe mark of a course that
        is not fixed, when it was before. */
    lemma MarkedValid(c: Course, before: Grids, slots: seq<Slot>, day: int, hour: int, kind: string)
      requires forall x :: x in courses ==> HasGroups(x)
      requires forall u :: u in tasks ==> u.course in courses && !u.course.isFixed
      requires Backed(before) && c in courses && !c.isFixed
      requires fixed == FixedGrids(courses) && Extends(fixed, before)
      requires Placeable(Slot(day, hour, kind)) && Safe(before, c, slots, day, hour, kind)
      requires SlotsHeld(c, slots, before)
      requires forall x :: x in courses && !x.isFixed && x != c ==> SlotsHeld(x, x.assignedSlots, before)
      requires State() == MarkGrids(before, c, day, hour, kind) && c.assignedSlots == slots + [Slot(day, hour, kind)]
      ensures Valid()
    {
      MarkKeepsBacked(before, c, day, hour, kind);
      ExtendsAfterMark(fixed, before, c, day, hour, kind);
      forall x | x in courses && !x.isFixed
        ensures SlotsHeld(x, x.assignedSlots, State())
      {
        if x == c {
          SlotsHeldAfterMark(c, x, slots, before, slots, day, hour, kind);
        } else {
          SlotsHeldAfterMark(c, x, x.assignedSlots, before, slots, day, hour, kind);
        }
      }
    }

    /** `_unmark(course, day, hour)`. */
    method Unmark(c: Course, day: int, hour: int)
      requires HasGroups(c)
      modifies this`grid, this`instructorGrid, this`crossGroupGrid, c`assignedSlots
      ensures State() == UnmarkGrids(old(State()), c, day, hour)
      ensures c.assignedSlots == DropFirstAt(old(c.assignedSlots), day, hour)
    {
      if YearCell(c.year, day, hour) in grid {
        grid := grid - {YearCell(c.year, day, hour)};
      } else {
        assert grid - {YearCell(c.year, day, hour)} == grid;
      }
      if TeacherCell(c.instructor, day, hour) in instructorGrid {
        instructorGrid := instructorGrid - {TeacherCell(c.instructor, day, hour)};
      } else {
        assert instructorGrid - {TeacherCell(c.instructor, day, hour)} == instructorGrid;
      }
      var groups := CourseGroups(c);
      if groups != {} {
        var cell := Cell(day, hour);
        if cell in crossGroupGrid && crossGroupGrid[cell] != {} {
          var rest := crossGroupGrid[cell] - groups;
          if rest == {} {
            crossGroupGrid := crossGroupGrid - {cell};
          } else {
            crossGroupGrid := crossGroupGrid[cell := rest];
          }
        }
      }
      DropSlot(c, day, hour);
    }

    /** The loop at the end of `_unmark`: the first slot at that day and
        hour is popped. */
    static method DropSlot(c: Course, day: int, hour: int)
      modifies c`assignedSlots
      ensures c.assignedSlots == DropFirstAt(old(c.assignedSlots), day, hour)
    {
      var i := 0;
      while i < |c.assignedSlots|
        invariant 0 <= i <= |c.assignedSlots|
        invariant c.assignedSlots == old(c.assignedSlots)
        invariant forall j :: 0 <= j < i ==> !At(day, hour)(c.assignedSlots[j])
      {
        if c.assignedSlots[i].day == day && c.assignedSlots[i].hour == hour {
          FirstIndexIs(c.assignedSlots, At(day, hour), i);
          c.assignedSlots := c.assignedSlots[..i] + c.assignedSlots[i + 1..];
          return;
        }
        i := i + 1;
      }
      FirstIndexIs(c.assignedSlots, At(day, hour), i);
    }

    /** `is_safe(course, day, hour, type_)`. */
    method IsSafe(c: Course, day: int, hour: int, kind: string) returns (r: bool)
      requires HasGroups(c)
      ensures r == Safe(State(), c, c.assignedSlots, day, hour, kind)
    {
      if day == 4 && (hour == 4 || hour == 5) {
        return false;
      }
      if YearCell(c.year, day, hour) in grid {
        return false;
      }
      if TeacherCell(c.instructor, day, hour) in instructorGrid {
        return false;
      }
      if kind == "T" {
        var daily := DailyTheoryHours(instructorGrid, c.instructor, day);
        if daily >= 4 {
          return false;
        }
      }
      if kind == "L" && c.theoryHours > 0 && !HasTheory(c.assignedSlots) {
        return false;
      }
      var mine := CourseGroups(c);
      var there := GroupsAt(crossGroupGrid, Cell(day, hour));
      if mine == {} || there == {} {
        return true;
      }
      if (YEAR_3 in mine && (CENG_ELECTIVE in there || SENG_ELECTIVE in there))
         || ((CENG_ELECTIVE in mine || SENG_ELECTIVE in mine) && YEAR_3 in there) {
        return false;
      }
      if (CENG_ELECTIVE in mine && SENG_ELECTIVE in there) || (SENG_ELECTIVE in mine && CENG_ELECTIVE in there) {
        return false;
      }
      return true;
    }

    /** `_backtrack(index)`: true when the units from `index` on are all
        placed, each course getting one new slot per unit, of the unit's
        type and in the units' order; false with the grids and every
        course's slots as they were. */
    method Backtrack(index: nat) returns (r: bool)
      requires Valid() && index <= |tasks|
      modifies this`grid, this`instructorGrid, this`crossGroupGrid, Courses()
      decreases |tasks| - index, 1
      ensures Valid()
      ensures !r ==> State() == old(State()) && forall c :: c in courses ==> c.assignedSlots == old(c.assignedSlots)
      ensures r ==> forall c :: c in courses ==>
        old(c.assignedSlots) <= c.assignedSlots
        && Kinds(c.assignedSlots[|old(c.assignedSlots)|..]) == KindsFor(tasks[index..], c)
    {
      if index == |tasks| {
        forall c | c in courses
          ensures Kinds(c.assignedSlots[|c.assignedSlots|..]) == KindsFor(tasks[index..], c)
        {
          assert tasks[index..] == [];
        }
        return true;
      }
      var d := 0;
      while d < 5
        invariant 0 <= d <= 5
        invariant Valid()
        invariant State() == old(State()) && forall x :: x in courses ==> x.assignedSlots == old(x.assignedSlots)
      {
        var h := 0;
        while h < 8
          invariant 0 <= h <= 8
          invariant Valid()
          invariant State() == old(State()) && forall x :: x in courses ==> x.assignedSlots == old(x.assignedSlots)
        {
          var done := TryCell(index, d, h);
          if done {
            return true;
          }
          h := h + 1;
        }
        d := d + 1;
      }
      return false;
    }

    /** `_unmark` right after `_mark` on a free cell: the grids and the
        course's slots are as they were before the mark. */
    method Undo(c: Course, d: int, h: int, kind: string, ghost before: Grids, ghost slots: seq<Slot>)
      requires HasGroups(c) && Backed(before) && Free(before, c, d, h)
      requires forall x :: x in slots ==> !(x.day == d && x.hour == h)
      requires State() == MarkGrids(before, c, d, h, kind) && c.assignedSlots == slots + [Slot(d, h, kind)]
      modifies this`grid, this`instructorGrid, this`crossGroupGrid, c`assignedSlots
      ensures State() == before && c.assignedSlots == slots
    {
      Unmark(c, d, h);
      UnmarkUndoesMark(before, c, d, h, kind);
      DropAfterAppend(slots, d, h, kind);
    }

    /** One pass of the inner loop of `_backtrack`: when the cell is safe
        for the unit at `index`, mark it and recurse, and unmark it again
        when the rest cannot be placed. */
    method TryCell(index: nat, d: int, h: int) returns (r: bool)
      requires Valid() && index < |tasks| && 0 <= d < 5 && 0 <= h < 8
      modifies this`grid, this`instructorGrid, this`crossGroupGrid, Courses()
      decreases |tasks| - index, 0
      ensures Valid()
      ensures !r ==> State() == old(State()) && forall c :: c in courses ==> c.assignedSlots == old(c.assignedSlots)
      ensures r ==> forall c :: c in courses ==>
        old(c.assignedSlots) <= c.assignedSlots
        && Kinds(c.assignedSlots[|old(c.assignedSlots)|..]) == KindsFor(tasks[index..], c)
    {
      var u := tasks[index];
      var c := u.course;
      var safe := IsSafe(c, d, h, u.kind);
      if !safe {
        return false;
      }
      ghost var before := State();
      ghost var slots := c.assignedSlots;
      SafeIsFree(before, c, slots, d, h, u.kind);
      NotHeldWhereFree(c, slots, before, d, h);
      Mark(c, d, h, u.kind, false);
      var done := Backtrack(index + 1);
      if done {
        forall x | x in courses
          ensures old(x.assignedSlots) <= x.assignedSlots
          ensures Kinds(x.assignedSlots[|old(x.assignedSlots)|..]) == KindsFor(tasks[index..], x)
        {
          KindsForStep(tasks, index, x);
          if x == c {
            Placed(tasks, index, c, slots, c.assignedSlots, Slot(d, h, u.kind));
          }
        }
        return true;
      }
      Undo(c, d, h, u.kind, before, slots);
      return false;
    }

    /** The first half of `solve`: the grids reset and the work list
        built, longest course first, theory hours before lab hours. */
    method Prepare()
      requires Valid()
      modifies this`grid, this`instructorGrid, this`crossGroupGrid, this`tasks, Courses()
      ensures Valid()
      ensures tasks == Plan(ByLoad(Unfixed(courses)))
      ensures State() == FixedGrids(courses)
      ensures forall c :: c in courses ==> c.assignedSlots == ResetValue(c)
    {
      ResetGrids();
      var toSchedule := ByLoad(Unfixed(courses));
      var units := PlanUnits(toSchedule);
      tasks := units;
      WorkIsUnfixed(courses);
    }

    /** `solve`: reset the grids, list the units of the courses that are
        not fixed, heaviest course first, and search. On success every
        course that is not fixed holds one slot per unit, in the units'
        order, each slot placed by the rules of `is_safe`; on failure only
        the fixed slots are left. */
    method Solve() returns (r: bool)
      requires Valid()
      modifies this`grid, this`instructorGrid, this`crossGroupGrid, this`tasks, Courses()
      ensures Valid()
      ensures tasks == Plan(ByLoad(Unfixed(courses)))
      ensures Extends(FixedGrids(courses), State())
      ensures forall c :: c in courses && c.isFixed ==> c.assignedSlots == c.fixedSlots
      ensures r ==> forall c :: c in courses && !c.isFixed ==> Kinds(c.assignedSlots) == KindsFor(tasks, c)
      ensures r ==> ConflictFree()
      ensures r ==> ClearOfFixed()
      ensures r ==> WithinRules()
      ensures !r ==> State() == FixedGrids(courses)
      ensures !r ==> forall c :: c in courses && !c.isFixed ==> c.assignedSlots == []
    {
      Prepare();
      r := Backtrack(0);
      assert tasks[0..] == tasks;
      Settled(r);
    }

    /** What `solve` reports, from the state the search leaves: on success
        each course has gained one slot per unit of the work list, and on
        failure the grids and slots are as `reset_grids` left them. */
    lemma Settled(r: bool)
      requires Valid() && tasks == Plan(ByLoad(Unfixed(courses)))
      requires r ==> forall c :: c in courses ==>
        ResetValue(c) <= c.assignedSlots && Kinds(c.assignedSlots[|ResetValue(c)|..]) == KindsFor(tasks, c)
      requires !r ==> State() == FixedGrids(courses) && forall c :: c in courses ==> c.assignedSlots == ResetValue(c)
      ensures Extends(FixedGrids(courses), State())
      ensures forall c :: c in courses && c.isFixed ==> c.assignedSlots == c.fixedSlots
      ensures r ==> forall c :: c in courses && !c.isFixed ==> Kinds(c.assignedSlots) == KindsFor(tasks, c)
      ensures r ==> ConflictFree()
      ensures r ==> ClearOfFixed()
      ensures r ==> WithinRules()
    {
      WorkIsUnfixed(courses);
      forall c | c in courses && c.isFixed
        ensures c.assignedSlots == c.fixedSlots
      {
        KindsForAbsent(tasks, c);
      }
      ValidConflictFree();
      ValidClearOfFixed();
      ValidKeepsFixed();
      ValidPlaced();
    }
  }
}
