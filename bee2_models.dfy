/** The course record of the second version of the BeePlan scheduler
    (`models.py`): the catalogue fields, the department taken from the
    course code, and the slots the engine assigns. */
module Bee2Models {
  import opened Base
  import opened Text

  /** One placement `(day, hour, type)`: day 0..4 is Monday..Friday, hour
      0..7 the teaching hour, and the type "T" for theory or "L" for lab. A
      fixed slot, stored as a three-element list, has the same three parts. */
  datatype Slot = Slot(day: int, hour: int, kind: string)

  /** The `department` property, `code.split()[0]`: the first
      whitespace-separated word of the code, or `None` for a blank code,
      where Python raises `IndexError`. */
  function Department(code: string): (r: Option<string>)
    ensures r.None? <==> IsBlank(code)
    ensures r.Some? ==>
      var k := |code| - |SkipWhitespace(code)|;
      && r.value != [] && k + |r.value| <= |code|
      && IsBlank(code[..k]) && code[k..k + |r.value|] == r.value
      && (forall i :: 0 <= i < |r.value| ==> !IsWhitespace(r.value[i]))
      && (k + |r.value| == |code| || IsWhitespace(code[k + |r.value|]))
  {
    var rest := SkipWhitespace(code);
    if rest == [] then None else Some(TakeWord(rest))
  }

  /** A word followed by nothing or by whitespace is the department of the
      code it starts: "SENG" is the department of "SENG 101". */
  lemma {:induction false} DepartmentOfWord(word: string, rest: string)
    requires word != [] && forall i :: 0 <= i < |word| ==> !IsWhitespace(word[i])
    requires rest == [] || IsWhitespace(rest[0])
    ensures Department(word + rest) == Some(word)
  {
    assert SkipWhitespace(word + rest) == word + rest;
    TakeWordOf(word, rest);
  }

  lemma {:induction false} TakeWordOf(word: string, rest: string)
    requires forall i :: 0 <= i < |word| ==> !IsWhitespace(word[i])
    requires rest == [] || IsWhitespace(rest[0])
    ensures TakeWord(word + rest) == word
  {
    if word == [] {
    } else {
      assert (word + rest)[1..] == word[1..] + rest;
      TakeWordOf(word[1..], rest);
    }
  }

  /** A course. Only `assigned_slots` is changed by the scheduler; the
      catalogue fields are constants here. */
  class Course {
    const code: string
    const name: string
    const instructor: string
    const year: int
    const semester: int
    const theoryHours: int
    const labHours: int
    const students: int
    const isFixed: bool
    const fixedSlots: seq<Slot>
    var assignedSlots: seq<Slot>

    /** The dataclass constructor with its defaults: no students, not
        fixed, no fixed and no assigned slots. */
    constructor (code: string, name: string, instructor: string, year: int, semester: int,
                 theoryHours: int, labHours: int)
      ensures this.code == code && this.name == name && this.instructor == instructor
      ensures this.year == year && this.semester == semester
      ensures this.theoryHours == theoryHours && this.labHours == labHours
      ensures students == 0 && !isFixed && fixedSlots == [] && assignedSlots == []
    {
      this.code := code;
      this.name := name;
      this.instructor := instructor;
      this.year := year;
      this.semester := semester;
      this.theoryHours := theoryHours;
      this.labHours := labHours;
      students := 0;
      isFixed := false;
      fixedSlots := [];
      assignedSlots := [];
    }

    /** The dataclass constructor with every field given. */
    constructor Full(code: string, name: string, instructor: string, year: int, semester: int,
                     theoryHours: int, labHours: int, students: int, isFixed: bool,
                     fixedSlots: seq<Slot>, assignedSlots: seq<Slot>)
      ensures this.code == code && this.name == name && this.instructor == instructor
      ensures this.year == year && this.semester == semester
      ensures this.theoryHours == theoryHours && this.labHours == labHours && this.students == students
      ensures this.isFixed == isFixed && this.fixedSlots == fixedSlots && this.assignedSlots == assignedSlots
    {
      this.code := code;
      this.name := name;
      this.instructor := instructor;
      this.year := year;
      this.semester := semester;
      this.theoryHours := theoryHours;
      this.labHours := labHours;
      this.students := students;
      this.isFixed := isFixed;
      this.fixedSlots := fixedSlots;
      this.assignedSlots := assignedSlots;
    }

    /** `reset`: a course that is not fixed loses its slots; a fixed one
        gets its fixed slots back, in their order. The result does not
        depend on the slots before, so a second reset changes nothing. */
    method Reset()
      modifies this`assignedSlots
      ensures !isFixed ==> assignedSlots == []
      ensures isFixed ==> assignedSlots == fixedSlots
    {
      if !isFixed {
        assignedSlots := [];
      } else {
        assignedSlots := fixedSlots;
      }
    }
  }
}
