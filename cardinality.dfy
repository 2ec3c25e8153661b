/**
 * The cardinality constraints of the complete encoder, up to the call into
 * pysat (complete_encode.py `number_of_lectures`, `room_stability_hard`,
 * `room_stability_soft`, `min_working_days_hard`, `min_working_days_soft`):
 * which literal list each course hands to the library, when a course is
 * skipped, how the pool's top is threaded, and which totalizer output gets
 * which weight.  The library itself (`CardEnc.equals`, `CardEnc.atleast`,
 * `ITotalizer`) is a parameter: a record of functions of the literals, the
 * bound and the pool's top.
 */
module Cardinality {
  import opened Seqs
  import opened Timetabling
  import opened Variables
  import opened Literals

  /** Clauses of an encoding and the pool's top after it. */
  datatype CardOut = CardOut(clauses: seq<Clause>, top: int)

  /** `ITotalizer`: its output literals `rhs`, its own clauses, and the highest id it used. */
  datatype Totalizer = Totalizer(rhs: seq<int>, clauses: seq<Clause>, topId: int)

  /** The pysat encoders, as functions of (literals, bound, top). */
  datatype CardLib = CardLib(
    equals: (seq<int>, int, int) -> CardOut,
    atLeast: (seq<int>, int, int) -> CardOut,
    totalizer: (seq<int>, int, int) -> Totalizer)
  {
    /** Auxiliary variables are fresh: the encoders never lower the top, and the totalizer's
        outputs lie above the top it was given and at most at the top it reports. */
    ghost predicate Fresh() {
      && (forall lits, k, top :: equals(lits, k, top).top >= top)
      && (forall lits, k, top :: atLeast(lits, k, top).top >= top)
      && (forall lits, u, top :: totalizer(lits, u, top).topId >= top)
      && (forall lits, u, top, i :: 0 <= i < |totalizer(lits, u, top).rhs| ==>
            top < totalizer(lits, u, top).rhs[i] <= totalizer(lits, u, top).topId)
      && (forall lits, u, top :: Distinct(totalizer(lits, u, top).rhs))
    }

    /** The totalizer counts upwards: under its clauses, when more than i of the inputs are true,
        output i is true. */
    ghost predicate Counts() {
      forall lits, u, top, a :: Sat(a, totalizer(lits, u, top).clauses) ==>
        forall i :: 0 <= i < |totalizer(lits, u, top).rhs| && i < CountTrue(a, lits) ==> totalizer(lits, u, top).rhs[i] in a
    }
  }

  /** One request to the library: a literal list and a bound. */
  datatype CardCall = CardCall(lits: seq<int>, bound: int)

  /** The requests made one after the other, each from the top the previous one left. */
  function RunCalls(enc: (seq<int>, int, int) -> CardOut, calls: seq<CardCall>, top: int): CardOut {
    if calls == [] then CardOut([], top)
    else
      var prev := RunCalls(enc, calls[..|calls| - 1], top);
      var out := enc(calls[|calls| - 1].lits, calls[|calls| - 1].bound, prev.top);
      CardOut(prev.clauses + out.clauses, out.top)
  }

  lemma RunCallsSnoc(enc: (seq<int>, int, int) -> CardOut, calls: seq<CardCall>, call: CardCall, top: int)
    ensures RunCalls(enc, calls + [call], top)
         == CardOut(RunCalls(enc, calls, top).clauses + enc(call.lits, call.bound, RunCalls(enc, calls, top).top).clauses,
                    enc(call.lits, call.bound, RunCalls(enc, calls, top).top).top)
  {
    assert (calls + [call])[..|calls|] == calls;
  }

  /** With an encoder that never lowers the top, neither does a run of requests. */
  lemma {:induction false} RunCallsTop(enc: (seq<int>, int, int) -> CardOut, calls: seq<CardCall>, top: int)
    requires forall lits, k, t :: enc(lits, k, t).top >= t
    ensures RunCalls(enc, calls, top).top >= top
  {
    if calls != [] {
      RunCallsTop(enc, calls[..|calls| - 1], top);
    }
  }

  // ---------------------------------------------------------------------
  // number_of_lectures: exactly numLectures of the course's slot literals

  /** The requests of `number_of_lectures`: per course, its slot literals below n and its lecture count;
      a course without any slot literal makes no request. */
  function LectureCalls(ch: VarMap, cs: seq<CourseId>, courses: map<CourseId, Course>, n: nat): seq<CardCall>
    requires forall c :: c in cs ==> c in courses
  {
    if cs == [] then []
    else
      var c := cs[|cs| - 1];
      var lits := Present(ch, SlotRow(CH, c, n));
      LectureCalls(ch, cs[..|cs| - 1], courses, n) + (if lits != [] then [CardCall(lits, courses[c].numLectures)] else [])
  }

  /** complete_encode.py `number_of_lectures`. */
  method NumberOfLectures(lib: CardLib, cs: seq<CourseId>, courses: map<CourseId, Course>, ch: VarMap, n: nat, pool: IdPool)
    returns (clauses: seq<Clause>)
    requires forall c :: c in cs ==> c in courses
    modifies pool
    ensures CardOut(clauses, pool.top) == RunCalls(lib.equals, LectureCalls(ch, cs, courses, n), old(pool.top))
  {
    ghost var top0 := pool.top;
    clauses := [];
    var i := 0;
    while i < |cs|
      invariant 0 <= i <= |cs|
      invariant CardOut(clauses, pool.top) == RunCalls(lib.equals, LectureCalls(ch, cs[..i], courses, n), top0)
    {
      var c := cs[i];
      assert cs[..i + 1][..i] == cs[..i];
      var lits := CollectPresent(ch, SlotRow(CH, c, n));
      assert LectureCalls(ch, cs[..i + 1], courses, n)
          == LectureCalls(ch, cs[..i], courses, n) + (if lits != [] then [CardCall(lits, courses[c].numLectures)] else []);
      if lits != [] {
        RunCallsSnoc(lib.equals, LectureCalls(ch, cs[..i], courses, n), CardCall(lits, courses[c].numLectures), top0);
        var out := lib.equals(lits, courses[c].numLectures, pool.top);
        clauses := clauses + out.clauses;
        pool.top := out.top;
      } else {
        assert LectureCalls(ch, cs[..i], courses, n) + [] == LectureCalls(ch, cs[..i], courses, n);
      }
      i := i + 1;
    }
    assert cs[..i] == cs;
  }

  /** Exactly the courses with a slot literal make a request, with their own literals and lecture count. */
  lemma LectureCallsMembers(ch: VarMap, cs: seq<CourseId>, courses: map<CourseId, Course>, n: nat)
    requires forall c :: c in cs ==> c in courses
    ensures forall call :: call in LectureCalls(ch, cs, courses, n) ==>
              exists c :: c in cs && c in courses && Present(ch, SlotRow(CH, c, n)) != []
                       && call == CardCall(Present(ch, SlotRow(CH, c, n)), courses[c].numLectures)
    ensures forall c :: c in cs && Present(ch, SlotRow(CH, c, n)) != [] ==>
              CardCall(Present(ch, SlotRow(CH, c, n)), courses[c].numLectures) in LectureCalls(ch, cs, courses, n)
    ensures |LectureCalls(ch, cs, courses, n)| <= |cs|
  {
    LectureCallsSound(ch, cs, courses, n);
    LectureCallsComplete(ch, cs, courses, n);
    LectureCallsLength(ch, cs, courses, n);
  }

  /** The last course's request, when it makes one. */
  function LastCall(ch: VarMap, cs: seq<CourseId>, courses: map<CourseId, Course>, n: nat): seq<CardCall>
    requires cs != [] && cs[|cs| - 1] in courses
  {
    var lits := Present(ch, SlotRow(CH, cs[|cs| - 1], n));
    if lits != [] then [CardCall(lits, courses[cs[|cs| - 1]].numLectures)] else []
  }

  lemma LectureCallsUnfold(ch: VarMap, cs: seq<CourseId>, courses: map<CourseId, Course>, n: nat)
    requires cs != [] && forall c :: c in cs ==> c in courses
    ensures forall c :: c in cs[..|cs| - 1] ==> c in courses
    ensures LectureCalls(ch, cs, courses, n) == LectureCalls(ch, cs[..|cs| - 1], courses, n) + LastCall(ch, cs, courses, n)
  {
    assert forall c :: c in cs[..|cs| - 1] ==> c in cs;
  }

  lemma {:induction false} LectureCallsSound(ch: VarMap, cs: seq<CourseId>, courses: map<CourseId, Course>, n: nat)
    requires forall c :: c in cs ==> c in courses
    ensures forall call :: call in LectureCalls(ch, cs, courses, n) ==>
              exists c :: c in cs && c in courses && Present(ch, SlotRow(CH, c, n)) != []
                       && call == CardCall(Present(ch, SlotRow(CH, c, n)), courses[c].numLectures)
  {
    if cs != [] {
      var init, last := cs[..|cs| - 1], cs[|cs| - 1];
      LectureCallsUnfold(ch, cs, courses, n);
      LectureCallsSound(ch, init, courses, n);
      assert cs == init + [last];
      forall call | call in LectureCalls(ch, cs, courses, n)
        ensures exists c :: c in cs && c in courses && Present(ch, SlotRow(CH, c, n)) != []
                         && call == CardCall(Present(ch, SlotRow(CH, c, n)), courses[c].numLectures)
      {
        if call !in LectureCalls(ch, init, courses, n) {
          assert call in LastCall(ch, cs, courses, n);
        }
      }
    }
  }

  lemma {:induction false} LectureCallsComplete(ch: VarMap, cs: seq<CourseId>, courses: map<CourseId, Course>, n: nat)
    requires forall c :: c in cs ==> c in courses
    ensures forall c :: c in cs && Present(ch, SlotRow(CH, c, n)) != [] ==>
              CardCall(Present(ch, SlotRow(CH, c, n)), courses[c].numLectures) in LectureCalls(ch, cs, courses, n)
  {
    if cs != [] {
      var init, last := cs[..|cs| - 1], cs[|cs| - 1];
      LectureCallsUnfold(ch, cs, courses, n);
      LectureCallsComplete(ch, init, courses, n);
      assert cs == init + [last];
      forall c | c in cs && Present(ch, SlotRow(CH, c, n)) != []
        ensures CardCall(Present(ch, SlotRow(CH, c, n)), courses[c].numLectures) in LectureCalls(ch, cs, courses, n)
      {
        if c != last {
          assert c in init;
        }
      }
    }
  }

  lemma {:induction false} LectureCallsLength(ch: VarMap, cs: seq<CourseId>, courses: map<CourseId, Course>, n: nat)
    requires forall c :: c in cs ==> c in courses
    ensures |LectureCalls(ch, cs, courses, n)| <= |cs|
  {
    if cs != [] {
      LectureCallsUnfold(ch, cs, courses, n);
      LectureCallsLength(ch, cs[..|cs| - 1], courses, n);
    }
  }

  /** When `ch` holds every slot of the course, its request lists the ids of (c, 0) .. (c, n-1) in order. */
  lemma LectureLiterals(ch: VarMap, c: CourseId, n: nat)
    requires forall h :: 0 <= h < n ==> Ch(c, h) in ch.ids
    ensures |Present(ch, SlotRow(CH, c, n))| == n
    ensures forall h :: 0 <= h < n ==> Present(ch, SlotRow(CH, c, n))[h] == ch.ids[Ch(c, h)]
  {
    SlotRowSpec(CH, c, n);
    PresentAll(ch, SlotRow(CH, c, n));
  }

  // ---------------------------------------------------------------------
  // room_stability_hard: exactly one room per course

  /** The requests of `room_stability_hard`: per course, its room literals with bound 1. */
  function StabilityCalls(cr: VarMap, cs: seq<CourseId>, rs: seq<RoomId>): seq<CardCall> {
    if cs == [] then []
    else
      var lits := Present(cr, CrRow(cs[|cs| - 1], rs));
      StabilityCalls(cr, cs[..|cs| - 1], rs) + (if lits != [] then [CardCall(lits, 1)] else [])
  }

  /** complete_encode.py `room_stability_hard`. */
  method RoomStabilityHard(lib: CardLib, cs: seq<CourseId>, rs: seq<RoomId>, cr: VarMap, pool: IdPool)
    returns (clauses: seq<Clause>)
    modifies pool
    ensures CardOut(clauses, pool.top) == RunCalls(lib.equals, StabilityCalls(cr, cs, rs), old(pool.top))
  {
    ghost var top0 := pool.top;
    clauses := [];
    var i := 0;
    while i < |cs|
      invariant 0 <= i <= |cs|
      invariant CardOut(clauses, pool.top) == RunCalls(lib.equals, StabilityCalls(cr, cs[..i], rs), top0)
    {
      assert cs[..i + 1][..i] == cs[..i];
      var lits := CollectPresent(cr, CrRow(cs[i], rs));
      assert StabilityCalls(cr, cs[..i + 1], rs) == StabilityCalls(cr, cs[..i], rs) + (if lits != [] then [CardCall(lits, 1)] else []);
      if lits != [] {
        RunCallsSnoc(lib.equals, StabilityCalls(cr, cs[..i], rs), CardCall(lits, 1), top0);
        var out := lib.equals(lits, 1, pool.top);
        clauses := clauses + out.clauses;
        pool.top := out.top;
      } else {
        assert StabilityCalls(cr, cs[..i], rs) + [] == StabilityCalls(cr, cs[..i], rs);
      }
      i := i + 1;
    }
    assert cs[..i] == cs;
  }

  /** Exactly the courses with a room literal make a request, with bound 1. */
  lemma {:induction false} StabilityCallsMembers(cr: VarMap, cs: seq<CourseId>, rs: seq<RoomId>)
    ensures forall call :: call in StabilityCalls(cr, cs, rs) ==>
              exists c :: c in cs && Present(cr, CrRow(c, rs)) != [] && call == CardCall(Present(cr, CrRow(c, rs)), 1)
    ensures forall c :: c in cs && Present(cr, CrRow(c, rs)) != [] ==>
              CardCall(Present(cr, CrRow(c, rs)), 1) in StabilityCalls(cr, cs, rs)
  {
    if cs != [] {
      var init, last := cs[..|cs| - 1], cs[|cs| - 1];
      StabilityCallsMembers(cr, init, rs);
      assert cs == init + [last];
      var prev := StabilityCalls(cr, init, rs);
      var lits := Present(cr, CrRow(last, rs));
      var tail := if lits != [] then [CardCall(lits, 1)] else [];
      assert StabilityCalls(cr, cs, rs) == prev + tail;
      forall call | call in StabilityCalls(cr, cs, rs)
        ensures exists c :: c in cs && Present(cr, CrRow(c, rs)) != [] && call == CardCall(Present(cr, CrRow(c, rs)), 1)
      {
        if call !in prev {
          assert call in tail;
        }
      }
      forall c | c in cs && Present(cr, CrRow(c, rs)) != []
        ensures CardCall(Present(cr, CrRow(c, rs)), 1) in StabilityCalls(cr, cs, rs)
      {
        if c != last {
          assert c in init;
        }
      }
    }
  }

  // ---------------------------------------------------------------------
  // min_working_days_hard: at least minWorkingDays of the course's day literals

  /** The requests of `min_working_days_hard`: per course with a day literal and a positive minimum. */
  function MinDaysCalls(cd: VarMap, cs: seq<CourseId>, courses: map<CourseId, Course>, days: nat): seq<CardCall>
    requires forall c :: c in cs ==> c in courses
  {
    if cs == [] then []
    else
      var c := cs[|cs| - 1];
      var lits := Present(cd, SlotRow(CD, c, days));
      var k := courses[c].minWorkingDays;
      MinDaysCalls(cd, cs[..|cs| - 1], courses, days) + (if lits != [] && k > 0 then [CardCall(lits, k)] else [])
  }

  /** complete_encode.py `min_working_days_hard`. */
  method MinWorkingDaysHard(lib: CardLib, cs: seq<CourseId>, courses: map<CourseId, Course>, cd: VarMap, days: nat, pool: IdPool)
    returns (clauses: seq<Clause>)
    requires forall c :: c in cs ==> c in courses
    modifies pool
    ensures CardOut(clauses, pool.top) == RunCalls(lib.atLeast, MinDaysCalls(cd, cs, courses, days), old(pool.top))
  {
    ghost var top0 := pool.top;
    clauses := [];
    var i := 0;
    while i < |cs|
      invariant 0 <= i <= |cs|
      invariant CardOut(clauses, pool.top) == RunCalls(lib.atLeast, MinDaysCalls(cd, cs[..i], courses, days), top0)
    {
      var c := cs[i];
      assert cs[..i + 1][..i] == cs[..i];
      var lits := CollectPresent(cd, SlotRow(CD, c, days));
      var k := courses[c].minWorkingDays;
      assert MinDaysCalls(cd, cs[..i + 1], courses, days)
          == MinDaysCalls(cd, cs[..i], courses, days) + (if lits != [] && k > 0 then [CardCall(lits, k)] else []);
      if lits != [] && k > 0 {
        RunCallsSnoc(lib.atLeast, MinDaysCalls(cd, cs[..i], courses, days), CardCall(lits, k), top0);
        var out := lib.atLeast(lits, k, pool.top);
        clauses := clauses + out.clauses;
        pool.top := out.top;
      } else {
        assert MinDaysCalls(cd, cs[..i], courses, days) + [] == MinDaysCalls(cd, cs[..i], courses, days);
      }
      i := i + 1;
    }
    assert cs[..i] == cs;
  }

  /** Exactly the courses with a day literal and a positive minimum make a request, with that minimum. */
  lemma {:induction false} MinDaysCallsMembers(cd: VarMap, cs: seq<CourseId>, courses: map<CourseId, Course>, days: nat)
    requires forall c :: c in cs ==> c in courses
    ensures forall call :: call in MinDaysCalls(cd, cs, courses, days) ==>
              exists c :: c in cs && c in courses && Present(cd, SlotRow(CD, c, days)) != [] && courses[c].minWorkingDays > 0
                       && call == CardCall(Present(cd, SlotRow(CD, c, days)), courses[c].minWorkingDays)
    ensures forall c :: c in cs && Present(cd, SlotRow(CD, c, days)) != [] && courses[c].minWorkingDays > 0 ==>
              CardCall(Present(cd, SlotRow(CD, c, days)), courses[c].minWorkingDays) in MinDaysCalls(cd, cs, courses, days)
  {
    if cs != [] {
      var init, last := cs[..|cs| - 1], cs[|cs| - 1];
      assert forall c :: c in init ==> c in cs;
      MinDaysCallsMembers(cd, init, courses, days);
      assert cs == init + [last];
      var prev := MinDaysCalls(cd, init, courses, days);
      var lits := Present(cd, SlotRow(CD, last, days));
      var k := courses[last].minWorkingDays;
      var tail := if lits != [] && k > 0 then [CardCall(lits, k)] else [];
      assert MinDaysCalls(cd, cs, courses, days) == prev + tail;
      forall call | call in MinDaysCalls(cd, cs, courses, days)
        ensures exists c :: c in cs && c in courses && Present(cd, SlotRow(CD, c, days)) != [] && courses[c].minWorkingDays > 0
                         && call == CardCall(Present(cd, SlotRow(CD, c, days)), courses[c].minWorkingDays)
      {
        if call !in prev {
          assert call in tail;
        }
      }
      forall c | c in cs && Present(cd, SlotRow(CD, c, days)) != [] && courses[c].minWorkingDays > 0
        ensures CardCall(Present(cd, SlotRow(CD, c, days)), courses[c].minWorkingDays) in MinDaysCalls(cd, cs, courses, days)
      {
        if c != last {
          assert c in init;
        }
      }
    }
  }

  // ---------------------------------------------------------------------
  // room_stability_soft and min_working_days_soft: weights on totalizer outputs

  /** Soft clauses, the hard clauses that define their auxiliary variables, and the pool's top after them. */
  datatype SoftOut = SoftOut(soft: seq<Weighted>, hard: seq<Clause>, top: int)

  /** `(0, [rhs[0]])` when there is an output, then `(1, [-rhs[i]])` for i = 1 .. |rhs|-1. */
  function StabilityWeights(rhs: seq<int>): seq<Weighted> {
    if |rhs| <= 1 then (if |rhs| == 1 then [Weighted(0, [rhs[0]])] else [])
    else StabilityWeights(rhs[..|rhs| - 1]) + [Weighted(1, [-rhs[|rhs| - 1]])]
  }

  /** One course of `room_stability_soft`: no room literal gives nothing, one gives `(0, lits)`,
      more go through a totalizer whose top becomes the pool's.  The generator as written returns
      only `soft`; `hard` holds the totalizer's own clauses, which it leaves out (see
      `StabilityVacuous` and `StabilityCost`). */
  function StabilityCourse(lib: CardLib, lits: seq<int>, top: int): SoftOut {
    if |lits| <= 1 then SoftOut(if |lits| == 1 then [Weighted(0, lits)] else [], [], top)
    else
      var tot := lib.totalizer(lits, |lits|, top);
      SoftOut(StabilityWeights(tot.rhs), tot.clauses, tot.topId)
  }

  /** The soft list of `room_stability_soft` over the courses `cs`. */
  function StabilitySoft(lib: CardLib, cr: VarMap, cs: seq<CourseId>, rs: seq<RoomId>, top: int): SoftOut {
    if cs == [] then SoftOut([], [], top)
    else
      var prev := StabilitySoft(lib, cr, cs[..|cs| - 1], rs, top);
      var out := StabilityCourse(lib, Present(cr, CrRow(cs[|cs| - 1], rs)), prev.top);
      SoftOut(prev.soft + out.soft, prev.hard + out.hard, out.top)
  }

  /** The weight loop over the totalizer outputs. */
  method WeighStability(rhs: seq<int>) returns (soft: seq<Weighted>)
    ensures soft == StabilityWeights(rhs)
  {
    soft := [];
    if |rhs| > 0 {
      soft := soft + [Weighted(0, [rhs[0]])];
    }
    var i := 1;
    while i < |rhs|
      invariant 1 <= i <= |rhs| || (|rhs| == 0 && i == 1)
      invariant |rhs| > 0 ==> soft == StabilityWeights(rhs[..i])
      invariant |rhs| == 0 ==> soft == []
    {
      assert rhs[..i + 1][..i] == rhs[..i];
      soft := soft + [Weighted(1, [-rhs[i]])];
      i := i + 1;
    }
    if |rhs| > 0 {
      assert rhs[..i] == rhs;
    }
  }

  /** complete_encode.py `room_stability_soft`. */
  method RoomStabilitySoft(lib: CardLib, cs: seq<CourseId>, rs: seq<RoomId>, cr: VarMap, pool: IdPool)
    returns (soft: seq<Weighted>, hard: seq<Clause>)
    modifies pool
    ensures SoftOut(soft, hard, pool.top) == StabilitySoft(lib, cr, cs, rs, old(pool.top))
  {
    ghost var top0 := pool.top;
    soft, hard := [], [];
    var i := 0;
    while i < |cs|
      invariant 0 <= i <= |cs|
      invariant SoftOut(soft, hard, pool.top) == StabilitySoft(lib, cr, cs[..i], rs, top0)
    {
      assert cs[..i + 1][..i] == cs[..i];
      var lits := CollectPresent(cr, CrRow(cs[i], rs));
      var s, h := StabilityCourseOut(lib, lits, pool);
      soft, hard := soft + s, hard + h;
      i := i + 1;
    }
    assert cs[..i] == cs;
  }

  /** The body of the course loop of `room_stability_soft`. */
  method StabilityCourseOut(lib: CardLib, lits: seq<int>, pool: IdPool) returns (soft: seq<Weighted>, hard: seq<Clause>)
    modifies pool
    ensures SoftOut(soft, hard, pool.top) == StabilityCourse(lib, lits, old(pool.top))
  {
    soft, hard := [], [];
    if |lits| <= 1 {
      if |lits| == 1 {
        soft := [Weighted(0, lits)];
      }
    } else {
      var tot := lib.totalizer(lits, |lits|, pool.top);
      pool.top := tot.topId;
      soft := WeighStability(tot.rhs);
      hard := tot.clauses;
    }
  }

  /** The outputs get weight 0 for "at least one room" and weight 1 for each further room:
      one soft unit clause per output, the first positive, the others negative. */
  lemma {:induction false} StabilityWeightsSpec(rhs: seq<int>)
    ensures |StabilityWeights(rhs)| == |rhs|
    ensures |rhs| > 0 ==> StabilityWeights(rhs)[0] == Weighted(0, [rhs[0]])
    ensures forall i :: 1 <= i < |rhs| ==> StabilityWeights(rhs)[i] == Weighted(1, [-rhs[i]])
  {
    if |rhs| > 1 {
      var init := rhs[..|rhs| - 1];
      StabilityWeightsSpec(init);
      forall i | 1 <= i < |rhs| - 1
        ensures StabilityWeights(rhs)[i] == Weighted(1, [-rhs[i]])
      {
        assert rhs[i] == init[i];
      }
    }
  }

  /** `(5, [rhs[j]])` for j = from, from-1, .., 1 whenever j < |rhs|. */
  function MinDaysWeights(rhs: seq<int>, from: int): seq<Weighted>
    decreases from
  {
    if from < 1 then []
    else (if from < |rhs| then [Weighted(5, [rhs[from]])] else []) + MinDaysWeights(rhs, from - 1)
  }

  /** One course of `min_working_days_soft`, with its day literals and minimum k. */
  function MinDaysCourse(lib: CardLib, lits: seq<int>, k: int, top: int): SoftOut {
    if lits == [] || k <= 0 || k > |lits| then SoftOut([], [], top)
    else
      var tot := lib.totalizer(lits, |lits|, top);
      SoftOut(MinDaysWeights(tot.rhs, k - 1), [], tot.topId)
  }

  /** The soft list of `min_working_days_soft` over the courses `cs`. */
  function MinDaysSoft(lib: CardLib, cd: VarMap, cs: seq<CourseId>, courses: map<CourseId, Course>, days: nat, top: int): SoftOut
    requires forall c :: c in cs ==> c in courses
  {
    if cs == [] then SoftOut([], [], top)
    else
      var prev := MinDaysSoft(lib, cd, cs[..|cs| - 1], courses, days, top);
      var c := cs[|cs| - 1];
      var out := MinDaysCourse(lib, Present(cd, SlotRow(CD, c, days)), courses[c].minWorkingDays, prev.top);
      SoftOut(prev.soft + out.soft, [], out.top)
  }

  /** The `for j in range(k - 1, 0, -1)` loop. */
  method WeighMinDays(rhs: seq<int>, k: int) returns (soft: seq<Weighted>)
    ensures soft == MinDaysWeights(rhs, k - 1)
  {
    soft := [];
    var j := k - 1;
    while j > 0
      invariant j <= k - 1 || j < 1
      invariant soft + MinDaysWeights(rhs, j) == MinDaysWeights(rhs, k - 1)
      decreases j
    {
      if j < |rhs| {
        soft := soft + [Weighted(5, [rhs[j]])];
      }
      j := j - 1;
    }
  }

  /** complete_encode.py `min_working_days_soft`. */
  method MinWorkingDaysSoft(lib: CardLib, cs: seq<CourseId>, courses: map<CourseId, Course>, cd: VarMap, days: nat, pool: IdPool)
    returns (soft: seq<Weighted>)
    requires forall c :: c in cs ==> c in courses
    modifies pool
    ensures SoftOut(soft, [], pool.top) == MinDaysSoft(lib, cd, cs, courses, days, old(pool.top))
  {
    ghost var top0 := pool.top;
    soft := [];
    var i := 0;
    while i < |cs|
      invariant 0 <= i <= |cs|
      invariant SoftOut(soft, [], pool.top) == MinDaysSoft(lib, cd, cs[..i], courses, days, top0)
    {
      var c := cs[i];
      assert cs[..i + 1][..i] == cs[..i];
      var lits := CollectPresent(cd, SlotRow(CD, c, days));
      var k := courses[c].minWorkingDays;
      if !(lits == [] || k <= 0 || k > |lits|) {
        var tot := lib.totalizer(lits, |lits|, pool.top);
        pool.top := tot.topId;
        var block := WeighMinDays(tot.rhs, k);
        soft := soft + block;
      }
      i := i + 1;
    }
    assert cs[..i] == cs;
  }

  /** At most k-1 clauses, each `(5, [rhs[j]])` for some 1 <= j < k that indexes `rhs`, in decreasing j;
      all k-1 of them when the totalizer has at least k outputs. */
  lemma {:induction false} MinDaysWeightsSpec(rhs: seq<int>, from: int)
    ensures |MinDaysWeights(rhs, from)| <= if from < 1 then 0 else from
    ensures forall w :: w in MinDaysWeights(rhs, from) <==>
              exists j :: 1 <= j <= from && j < |rhs| && w == Weighted(5, [rhs[j]])
    ensures from < |rhs| ==> |MinDaysWeights(rhs, from)| == (if from < 1 then 0 else from)
    ensures from < |rhs| ==> forall i :: 0 <= i < |MinDaysWeights(rhs, from)| ==>
              MinDaysWeights(rhs, from)[i] == Weighted(5, [rhs[from - i]])
    decreases from
  {
    if from >= 1 {
      MinDaysWeightsSpec(rhs, from - 1);
    }
  }

  /** A course is skipped (no totalizer, top unchanged) exactly when it has no day literal, a
      non-positive minimum or a minimum above its number of day literals. */
  lemma MinDaysCourseSkip(lib: CardLib, lits: seq<int>, k: int, top: int)
    ensures (lits == [] || k <= 0 || k > |lits|) ==> MinDaysCourse(lib, lits, k, top) == SoftOut([], [], top)
    ensures !(lits == [] || k <= 0 || k > |lits|) ==>
              |MinDaysCourse(lib, lits, k, top).soft| <= k - 1
              && forall w :: w in MinDaysCourse(lib, lits, k, top).soft ==> w.weight == 5 && |w.clause| == 1
  {
    if !(lits == [] || k <= 0 || k > |lits|) {
      var tot := lib.totalizer(lits, |lits|, top);
      MinDaysWeightsSpec(tot.rhs, k - 1);
    }
  }

  // ---------------------------------------------------------------------
  // What the soft clauses on totalizer outputs cost

  /** Outputs 1 .. m-1 true make the weights of `StabilityWeights` cost at least min(m, |rhs|) - 1. */
  lemma {:induction false} StabilityWeightsCost(a: set<int>, rhs: seq<int>, m: int)
    requires forall i :: 0 <= i < |rhs| ==> rhs[i] >= 1
    requires forall i :: 0 <= i < |rhs| && i < m ==> rhs[i] in a
    ensures Cost(a, StabilityWeights(rhs)) >= (if m < |rhs| then m else |rhs|) - 1
  {
    if |rhs| > 1 {
      var init, last := rhs[..|rhs| - 1], rhs[|rhs| - 1];
      StabilityWeightsCost(a, init, m);
      NotMeaning(a, last);
    }
  }

  /** Output 0 true and every other output false make the weights of `StabilityWeights` cost nothing. */
  lemma {:induction false} StabilityWeightsFree(b: set<int>, rhs: seq<int>)
    requires forall i :: 0 <= i < |rhs| ==> rhs[i] >= 1
    requires |rhs| > 0 ==> rhs[0] in b
    requires forall i :: 1 <= i < |rhs| ==> rhs[i] !in b
    ensures Cost(b, StabilityWeights(rhs)) == 0
  {
    if |rhs| == 1 {
      assert Holds(b, rhs[0]) && rhs[0] in [rhs[0]];
    } else if |rhs| > 1 {
      StabilityWeightsFree(b, rhs[..|rhs| - 1]);
      NotMeaning(b, rhs[|rhs| - 1]);
    }
  }

  /** As written, a course's stability clauses constrain nothing: whatever the schedule (the ids up to
      `top`), setting the totalizer's outputs freely brings their cost to zero. */
  lemma StabilityVacuous(lib: CardLib, lits: seq<int>, top: int, a: set<int>)
    requires lib.Fresh() && top >= 0
    ensures exists b :: (forall x :: x <= top ==> (x in b <==> x in a)) && Cost(b, StabilityCourse(lib, lits, top).soft) == 0
  {
    var soft := StabilityCourse(lib, lits, top).soft;
    if |lits| <= 1 {
      if |lits| == 1 {
        assert soft[..0] == [];
      }
      assert Cost(a, soft) == 0;
      assert forall x :: x <= top ==> (x in a <==> x in a);
    } else {
      var rhs := lib.totalizer(lits, |lits|, top).rhs;
      var outs := set i | 0 <= i < |rhs| :: rhs[i];
      var b := if |rhs| > 0 then (a - outs) + {rhs[0]} else a;
      forall i | 1 <= i < |rhs|
        ensures rhs[i] !in b
      {
        assert rhs[i] != rhs[0];
      }
      StabilityWeightsFree(b, rhs);
      forall x | x <= top
        ensures x in b <==> x in a
      {
        assert x !in outs;
      }
    }
  }

  /** With the totalizer's clauses kept as hard clauses, a course whose true room literals number
      m pays at least m - 1 (up to the number of outputs) for rooms beyond the first. */
  lemma StabilityCost(lib: CardLib, lits: seq<int>, top: int, a: set<int>)
    requires lib.Fresh() && lib.Counts() && top >= 0 && |lits| >= 2
    requires Sat(a, StabilityCourse(lib, lits, top).hard)
    ensures var m, outs := CountTrue(a, lits), |lib.totalizer(lits, |lits|, top).rhs|;
            Cost(a, StabilityCourse(lib, lits, top).soft) >= (if m < outs then m else outs) - 1
  {
    var tot := lib.totalizer(lits, |lits|, top);
    StabilityWeightsCost(a, tot.rhs, CountTrue(a, lits));
  }

  /** Every output true makes the weights of `MinDaysWeights` cost nothing. */
  lemma {:induction false} MinDaysWeightsFree(b: set<int>, rhs: seq<int>, from: int)
    requires forall i :: 0 <= i < |rhs| ==> rhs[i] in b && rhs[i] >= 1
    ensures Cost(b, MinDaysWeights(rhs, from)) == 0
    decreases from
  {
    if from >= 1 {
      MinDaysWeightsFree(b, rhs, from - 1);
      var head := if from < |rhs| then [Weighted(5, [rhs[from]])] else [];
      CostAppend(b, head, MinDaysWeights(rhs, from - 1));
      if from < |rhs| {
        assert Holds(b, rhs[from]) && rhs[from] in [rhs[from]];
        assert head[..0] == [];
      }
    }
  }

  /** As written, a course's working-day clauses constrain nothing either: setting every totalizer
      output true, whatever the schedule, brings their cost to zero. */
  lemma MinDaysVacuous(lib: CardLib, lits: seq<int>, k: int, top: int, a: set<int>)
    requires lib.Fresh() && top >= 0
    ensures exists b :: (forall x :: x <= top ==> (x in b <==> x in a)) && Cost(b, MinDaysCourse(lib, lits, k, top).soft) == 0
  {
    if lits == [] || k <= 0 || k > |lits| {
      assert Cost(a, MinDaysCourse(lib, lits, k, top).soft) == 0;
      assert forall x :: x <= top ==> (x in a <==> x in a);
    } else {
      var rhs := lib.totalizer(lits, |lits|, top).rhs;
      var outs := set i | 0 <= i < |rhs| :: rhs[i];
      var b := a + outs;
      forall i | 0 <= i < |rhs|
        ensures rhs[i] in b && rhs[i] >= 1
      {
        assert top < rhs[i];
      }
      MinDaysWeightsFree(b, rhs, k - 1);
      assert MinDaysCourse(lib, lits, k, top).soft == MinDaysWeights(rhs, k - 1);
      forall x | x <= top
        ensures x in b <==> x in a
      {
        assert x !in outs;
      }
      assert (forall x :: x <= top ==> (x in b <==> x in a)) && Cost(b, MinDaysCourse(lib, lits, k, top).soft) == 0;
    }
  }
}
