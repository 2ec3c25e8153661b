/**
 * The CTT instance as the encoder reads it.  Python dictionaries keep their
 * insertion order, so every dictionary of the instance is a map together with
 * the sequence of its keys in that order.
 */
module Timetabling {
  import opened Seqs

  type CourseId = string
  type RoomId = string
  type CurriculumId = string
  type TeacherId = string

  datatype Course = Course(teacher: TeacherId, numLectures: int, minWorkingDays: int, numStudents: int)

  datatype Room = Room(capacity: int)

  /** The member courses, without repetition, in the order the encoder visits them. */
  datatype Curriculum = Curriculum(courses: seq<CourseId>)

  datatype Unavailability = Unavailability(courseId: CourseId, day: int, dayPeriod: int)

  datatype Instance = Instance(
    name: string,
    numDays: nat,
    periodsPerDay: nat,
    courseIds: seq<CourseId>,
    courses: map<CourseId, Course>,
    roomIds: seq<RoomId>,
    rooms: map<RoomId, Room>,
    curriculumIds: seq<CurriculumId>,
    curricula: map<CurriculumId, Curriculum>,
    unavailabilities: seq<Unavailability>)
  {
    /** The shape every parsed instance has: dictionaries with their key orders, a positive day length. */
    ghost predicate Valid() {
      && periodsPerDay >= 1
      && Distinct(courseIds) && (forall c :: c in courses <==> c in courseIds)
      && Distinct(roomIds) && (forall r :: r in rooms <==> r in roomIds)
      && Distinct(curriculumIds) && (forall k :: k in curricula <==> k in curriculumIds)
      && (forall k :: k in curricula ==> Distinct(curricula[k].courses))
    }

    function TotalHours(): nat {
      periodsPerDay * numDays
    }
  }

  /** `map_teacher`'s result: the teachers in order of first appearance, and each teacher's courses. */
  datatype TeacherMap = TeacherMap(teachers: seq<TeacherId>, groups: map<TeacherId, seq<CourseId>>)

  /** The distinct teachers of `cs`, in the order they first appear. */
  function TeacherOrder(cs: seq<CourseId>, courses: map<CourseId, Course>): seq<TeacherId>
    requires forall c :: c in cs ==> c in courses
  {
    if cs == [] then []
    else
      var prev := TeacherOrder(cs[..|cs| - 1], courses);
      var t := courses[cs[|cs| - 1]].teacher;
      if t in prev then prev else prev + [t]
  }

  /** The courses of `cs` taught by `t`, in the order of `cs`. */
  function Group(cs: seq<CourseId>, courses: map<CourseId, Course>, t: TeacherId): seq<CourseId>
    requires forall c :: c in cs ==> c in courses
  {
    if cs == [] then []
    else
      var prev := Group(cs[..|cs| - 1], courses, t);
      if courses[cs[|cs| - 1]].teacher == t then prev + [cs[|cs| - 1]] else prev
  }

  /** Groups the course ids by teacher, visiting the courses in dictionary order. */
  method MapTeacher(courseIds: seq<CourseId>, courses: map<CourseId, Course>) returns (tm: TeacherMap)
    requires forall c :: c in courseIds ==> c in courses
    ensures tm.teachers == TeacherOrder(courseIds, courses)
    ensures forall t :: t in tm.groups <==> t in tm.teachers
    ensures forall t :: t in tm.groups ==> tm.groups[t] == Group(courseIds, courses, t)
  {
    tm := TeacherMap([], map[]);
    var i := 0;
    while i < |courseIds|
      invariant 0 <= i <= |courseIds|
      invariant tm.teachers == TeacherOrder(courseIds[..i], courses)
      invariant forall t :: t in tm.groups <==> t in tm.teachers
      invariant forall t :: t in tm.groups ==> tm.groups[t] == Group(courseIds[..i], courses, t)
    {
      var c := courseIds[i];
      var t := courses[c].teacher;
      assert courseIds[..i + 1][..i] == courseIds[..i];
      if t !in tm.groups {
        GroupAbsent(courseIds[..i], courses, t);
        tm := TeacherMap(tm.teachers + [t], tm.groups[t := []]);
      }
      tm := tm.(groups := tm.groups[t := tm.groups[t] + [c]]);
      i := i + 1;
    }
    assert courseIds[..|courseIds|] == courseIds;
  }

  /** A teacher that does not appear yet has an empty group. */
  lemma {:induction false} GroupAbsent(cs: seq<CourseId>, courses: map<CourseId, Course>, t: TeacherId)
    requires forall c :: c in cs ==> c in courses
    requires t !in TeacherOrder(cs, courses)
    ensures Group(cs, courses, t) == []
  {
    if cs != [] {
      var prev := cs[..|cs| - 1];
      GroupAbsent(prev, courses, t);
    }
  }

  /** A group holds exactly the courses of `cs` that `t` teaches. */
  lemma {:induction false} GroupMembers(cs: seq<CourseId>, courses: map<CourseId, Course>, t: TeacherId)
    requires forall c :: c in cs ==> c in courses
    ensures forall c :: c in Group(cs, courses, t) <==> c in cs && courses[c].teacher == t
  {
    if cs != [] {
      var prev := cs[..|cs| - 1];
      GroupMembers(prev, courses, t);
      assert cs == prev + [cs[|cs| - 1]];
    }
  }

  /** A group of distinct courses repeats no course. */
  lemma {:induction false} GroupDistinct(cs: seq<CourseId>, courses: map<CourseId, Course>, t: TeacherId)
    requires forall c :: c in cs ==> c in courses
    requires Distinct(cs)
    ensures Distinct(Group(cs, courses, t))
  {
    if cs != [] {
      var prev := cs[..|cs| - 1];
      GroupDistinct(prev, courses, t);
      GroupMembers(prev, courses, t);
    }
  }

  /** Every teacher of a course is listed once, and only teachers of some course are listed. */
  lemma {:induction false} TeacherOrderSpec(cs: seq<CourseId>, courses: map<CourseId, Course>)
    requires forall c :: c in cs ==> c in courses
    ensures Distinct(TeacherOrder(cs, courses))
    ensures forall c :: c in cs ==> courses[c].teacher in TeacherOrder(cs, courses)
    ensures forall t :: t in TeacherOrder(cs, courses) ==> Group(cs, courses, t) != []
  {
    if cs != [] {
      var prev := cs[..|cs| - 1];
      TeacherOrderSpec(prev, courses);
      assert cs == prev + [cs[|cs| - 1]];
      var t := courses[cs[|cs| - 1]].teacher;
      forall t' | t' in TeacherOrder(cs, courses)
        ensures Group(cs, courses, t') != []
      {
        if t' != t {
          assert t' in TeacherOrder(prev, courses);
        }
      }
    }
  }
}
