/** A lecturer of the Java BeePlan timetable (`Instructor.java`): a name
    and, per day, the list of timeslots the lecturer is available in. */
module BeeInstructor {
  import opened Base

  /** A `null` name is `None`; a day mapped to a `null` list is `None`. */
  datatype Instructor = Instructor(name: Option<string>, availability: map<string, Option<seq<string>>>)

  /** `new Instructor()`: no name and no available day. */
  function NewInstructor(): (i: Instructor)
    ensures i.name.None? && i.availability == map[]
    ensures forall day, slot :: !IsAvailable(i, day, slot)
  {
    Instructor(None, map[])
  }

  /** `new Instructor(name, availability)`: a `null` map becomes an empty
      one, so the lecturer is available nowhere. */
  function CreateInstructor(name: Option<string>, availability: Option<map<string, Option<seq<string>>>>)
    : (i: Instructor)
    ensures i.name == name
    ensures availability.None? ==> i.availability == map[] && forall day, slot :: !IsAvailable(i, day, slot)
    ensures availability.Some? ==> i.availability == availability.value
  {
    Instructor(name, if availability.None? then map[] else availability.value)
  }

  /** `isAvailable(day, timeslot)`: the day has a non-null list holding the
      timeslot. */
  predicate IsAvailable(i: Instructor, day: string, timeslot: string)
  {
    var slots := if day in i.availability then i.availability[day] else None;
    slots.Some? && timeslot in slots.value
  }

  /** An unknown day, or a day with a null list, makes the lecturer
      unavailable; otherwise availability is membership in the day's
      list. */
  lemma AvailableIff(i: Instructor, day: string, timeslot: string)
    ensures day !in i.availability ==> !IsAvailable(i, day, timeslot)
    ensures day in i.availability && i.availability[day].None? ==> !IsAvailable(i, day, timeslot)
    ensures day in i.availability && i.availability[day].Some? ==>
      (IsAvailable(i, day, timeslot) <==> exists k :: 0 <= k < |i.availability[day].value| && i.availability[day].value[k] == timeslot)
  {
  }
}
