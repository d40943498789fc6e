/** The validation report of the second version of the BeePlan scheduler
    (`reporting.py`): every course that is not fixed and has a lab hour
    placed no later than its last theory hour is reported. */
module Bee2Reporting {
  import opened Seqs
  import opened Bee2Models

  /** What the report reads of a course: its code, whether it is fixed,
      and its assigned slots. */
  datatype Entry = Entry(code: string, isFixed: bool, slots: seq<Slot>)

  function EntryOf(c: Course): Entry
    reads c
  {
    Entry(c.code, c.isFixed, c.assignedSlots)
  }

  function Entries(cs: seq<Course>): (r: seq<Entry>)
    reads set c | c in cs
    ensures |r| == |cs|
    ensures forall i :: 0 <= i < |cs| ==> r[i] == EntryOf(cs[i])
  {
    if cs == [] then [] else Entries(cs[..|cs| - 1]) + [EntryOf(cs[|cs| - 1])]
  }

  /** `(day, hour)` order, the key of the report's `max` and `min`. */
  predicate NoLater(a: Slot, b: Slot)
  {
    a.day < b.day || (a.day == b.day && a.hour <= b.hour)
  }

  /** `[s for s in slots if s[2] == kind]`. */
  function OfKind(slots: seq<Slot>, kind: string): (r: seq<Slot>)
    ensures forall x :: x in r <==> x in slots && x.kind == kind
  {
    if slots == [] then []
    else
      var init := slots[..|slots| - 1];
      var x := slots[|slots| - 1];
      assert slots == init + [x];
      OfKind(init, kind) + (if x.kind == kind then [x] else [])
  }

  /** `max(times, key=(day, hour))`: the first of the latest slots. */
  function Latest(s: seq<Slot>): (r: Slot)
    requires s != []
    ensures r in s
    ensures forall x :: x in s ==> NoLater(x, r)
  {
    if |s| == 1 then s[0]
    else
      var init := s[..|s| - 1];
      var x := s[|s| - 1];
      assert s == init + [x];
      var m := Latest(init);
      if NoLater(x, m) then m else x
  }

  /** `min(times, key=(day, hour))`: the first of the earliest slots. */
  function Earliest(s: seq<Slot>): (r: Slot)
    requires s != []
    ensures r in s
    ensures forall x :: x in s ==> NoLater(r, x)
  {
    if |s| == 1 then s[0]
    else
      var init := s[..|s| - 1];
      var x := s[|s| - 1];
      assert s == init + [x];
      var m := Earliest(init);
      if NoLater(m, x) then m else x
  }

  /** The lab-after-theory rule broken: there are theory and lab slots,
      and the first lab is not strictly after the last theory. */
  predicate LabTooEarly(slots: seq<Slot>)
  {
    var theoryTimes := OfKind(slots, "T");
    var labTimes := OfKind(slots, "L");
    theoryTimes != [] && labTimes != [] && NoLater(Earliest(labTimes), Latest(theoryTimes))
  }

  /** The rule is broken exactly when some lab slot is no later than some
      theory slot, whichever they are. */
  lemma LabTooEarlyIff(slots: seq<Slot>)
    ensures LabTooEarly(slots) <==>
      exists lab, theory :: lab in slots && theory in slots && lab.kind == "L" && theory.kind == "T" && NoLater(lab, theory)
  {
    var theoryTimes := OfKind(slots, "T");
    var labTimes := OfKind(slots, "L");
    if LabTooEarly(slots) {
      var lab := Earliest(labTimes);
      var theory := Latest(theoryTimes);
      assert lab in slots && theory in slots && lab.kind == "L" && theory.kind == "T";
    }
    if exists lab, theory :: lab in slots && theory in slots && lab.kind == "L" && theory.kind == "T" && NoLater(lab, theory) {
      var lab, theory :| lab in slots && theory in slots && lab.kind == "L" && theory.kind == "T" && NoLater(lab, theory);
      assert lab in labTimes && theory in theoryTimes;
      assert NoLater(Earliest(labTimes), lab);
      assert NoLater(theory, Latest(theoryTimes));
    }
  }

  /** A course with no lab slot, or with no theory slot, is never
      reported. */
  lemma OnlyOneKindIsFine(slots: seq<Slot>)
    requires (forall x :: x in slots ==> x.kind != "L") || (forall x :: x in slots ==> x.kind != "T")
    ensures !LabTooEarly(slots)
  {
    LabTooEarlyIff(slots);
  }

  predicate Reported(e: Entry)
  {
    !e.isFixed && LabTooEarly(e.slots)
  }

  function Message(code: string): (m: string)
    ensures |m| > 6 && m[0] == 'H'
  {
    "HATA: " + code + " Lab dersi Teoriden önce konmuş!"
  }

  function MessageOf(e: Entry): string
  {
    Message(e.code)
  }

  const Accepted: string := "Program Kurallara Uygun."

  /** The violations list: one message per reported entry, in the order
      of the courses. A fixed course, or one whose labs all follow its
      theory, has none. */
  function Violations(es: seq<Entry>): (r: seq<string>)
    ensures |r| <= |es|
  {
    Map(Filter(es, Reported), MessageOf)
  }

  /** Every message names a reported entry, and every reported entry has
      its message. */
  lemma ViolationsCover(es: seq<Entry>)
    ensures forall m :: m in Violations(es) ==> exists e :: e in es && Reported(e) && m == MessageOf(e)
    ensures forall e :: e in es && Reported(e) ==> MessageOf(e) in Violations(es)
  {
    MapFilterCovers(es, Reported, MessageOf);
  }

  lemma ViolationsSnoc(es: seq<Entry>, i: nat)
    requires i < |es|
    ensures Violations(es[..i + 1]) == Violations(es[..i]) + (if Reported(es[i]) then [MessageOf(es[i])] else [])
  {
    FilterSnoc(es, i, Reported);
    MapConcat(Filter(es[..i], Reported), if Reported(es[i]) then [es[i]] else [], MessageOf);
  }

  /** `generate_validation_report`: the violations, or the single
      acceptance message when there are none. */
  function Report(es: seq<Entry>): (r: seq<string>)
    ensures r != []
    ensures r == [Accepted] <==> forall e :: e in es ==> !Reported(e)
    ensures r != [Accepted] ==> r == Violations(es)
  {
    var v := Violations(es);
    ViolationsCover(es);
    if v == [] then [Accepted]
    else
      assert v[0] != Accepted by {
        assert v[0] in v;
        var e :| e in es && Reported(e) && v[0] == MessageOf(e);
        assert v[0][0] == 'H' != Accepted[0];
      }
      v
  }

  /** `ReportGenerator`: the courses to report on. The rooms it is also
      given are not used by the report. */
  class ReportGenerator {
    const courses: seq<Course>

    constructor (courses: seq<Course>)
      ensures this.courses == courses
    {
      this.courses := courses;
    }

    /** `generate_validation_report`, the loop over the courses. */
    method GenerateValidationReport() returns (r: seq<string>)
      ensures r == Report(Entries(courses))
    {
      var violations := [];
      var i := 0;
      while i < |courses|
        invariant 0 <= i <= |courses|
        invariant violations == Violations(Entries(courses)[..i])
      {
        var course := courses[i];
        ViolationsSnoc(Entries(courses), i);
        if !course.isFixed {
          var theoryTimes := OfKind(course.assignedSlots, "T");
          var labTimes := OfKind(course.assignedSlots, "L");
          if theoryTimes != [] && labTimes != [] {
            var lastTheory := Latest(theoryTimes);
            var firstLab := Earliest(labTimes);
            if firstLab.day < lastTheory.day || (firstLab.day == lastTheory.day && firstLab.hour <= lastTheory.hour) {
              violations := violations + [Message(course.code)];
            }
          }
        }
        i := i + 1;
      }
      assert Entries(courses)[..i] == Entries(courses);
      r := if violations != [] then violations else [Accepted];
    }
  }
}
