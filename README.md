# Timetabling to SAT: a verified model of the clause generators

This project models the encoding engine of a curriculum-based course timetabling encoder
(the ITC2007 "CTT" problem). The engine turns an instance into propositional clauses, or
into hard and weighted soft clauses for partial MaxSAT. An instance has courses, rooms,
curricula, unavailabilities and a calendar of `numDays` days with `periodsPerDay` periods
each. The model covers three encoders:

- **complete_encode.py**, the current encoder (modules `Calendar`, `Timetabling`,
  `Variables`, `Allocation`, `Literals`, `Relations`, `Clashes`, `Constraints`,
  `Cardinality`, `Sections`):
  - the calendar helpers `day` and `hour_for_day`, and the first/last-slot tests;
  - `map_teacher`;
  - the five variable allocators `get_ch`, `get_cd`, `get_cr`, `get_kh` and `get_chr`. They
    draw ids from an `IDPool` and record the inverse map `id_to_var`;
  - the relation generators `relation_ch_cd`, `relation_ch_kh`, `relation_ch_chr` and
    `relation_cr_chr`;
  - the clash generators for curricula, teachers and rooms (basic and complete);
  - the availability, capacity and isolated-lecture generators;
  - the cardinality generators up to the call into pysat;
  - the four mode assemblers `encode_section_3`, `_4_1`, `_4_2` and `_4_4`.
- **utils.py**: `day` and `hour_for_day`. These are the same definitions as in
  complete_encode.py.
- **basic_encoder.py** and **encoder.py**, two earlier encoders (modules `BasicGenerators`,
  `BasicConstraints`, `BasicAssembly`). Their allocators thread an explicit counter `n_var`,
  and their generators differ from the complete encoder's in several ways. Each difference
  is modelled as written and related by a lemma to the complete encoder's generator, or to
  what the code evidently meant. encoder.py holds a subset of basic_encoder.py's
  generators, so both share one definition per generator.

How the code becomes Dafny:

- **Allocators and generators** become methods with loops. The source builds its lists by
  appending in nested loops. Each method is proved equal to a specification function over
  the input dictionaries. Meaning lemmas then state what an assignment satisfying the
  clauses must look like.
- **Literals and clauses.** A literal is an `int` and a clause a `seq<int>`.
- **Assignments.** An assignment is the `set<int>` of true variable ids. `Sat` says an
  assignment satisfies a list of clauses. `Cost` is the total weight of the falsified soft
  clauses.
- **Dictionaries.** A Python dictionary of variables is a `VarMap`: the key sequence in
  insertion order plus the map from key to id.
- **pysat's IDPool** becomes the class `IdPool`, with its counter `top` as the only field.
- **pysat's encoders.** `CardEnc.equals`, `CardEnc.atleast` and `ITotalizer` form a
  `CardLib` parameter of function values. What the model needs of them is stated as
  predicates that callers require: fresh ids, and the meaning of the totalizer's outputs.

Where the ITC2007 curriculum-based course timetabling problem statement and the code
disagree, the model follows the code:

- `day` is `ceil((h+1)/ppd) - 1`. It is proved equal to floor division for `h >= 0`.
- `time_slot_availability` in complete_encode.py skips an unavailability whose key is
  missing, where the description asks for a failure.
- The cardinality generators skip a course without literals instead of reporting an error.
  The older `number_of_lectures` calls the library even when there are no literals.
- Room stability in section 4.4 puts the "at least one room" output in as a weight-0 soft
  clause, not as a hard clause.
- The older encoders do not group before pairing in `teacher_clashes` (see Findings).

## Model

| member | source | states |
|---|---|---|
| Calendar.DayIsFloorDiv | utils.py:3-12 | for ppd >= 1, `ceil((h+1)/ppd) - 1` is h div ppd |
| Calendar.DayBounds | utils.py:3-12 | for h >= 0 the day of h lies between 0 and h, so it is a valid index of days for any slot of the grid |
| Calendar.HoursForDayShape | utils.py:14-25 | the slots of day d are ppd ascending entries, entry i being d*ppd + i |
| Calendar.DayOfListedHour | complete_encode.py:116-122 | every slot listed for day d has day d (one direction of the round trip) |
| Calendar.HourInOwnDay | complete_encode.py:116-122 | a slot is listed among the slots of its own day, at position h mod ppd (the other direction) |
| Calendar.DaysDisjoint | utils.py:14-25 | two different days list no common slot |
| Calendar.AllDaysIsAllSlots | utils.py:14-25 | the slot lists of days 0 .. D-1 concatenate to 0 .. D*ppd-1, in order |
| Calendar.FirstSlotIsDayStart | complete_encode.py:141-142 | `is_first_slot_of_day(h)` holds exactly when h is the first slot its day lists |
| Calendar.LastSlotIsDayEnd | complete_encode.py:144-145 | `is_last_slot_of_day(h)` holds exactly when h is the last slot its day lists |
| Calendar.NeighboursSameDay | complete_encode.py:141-145 | h+1 is on h's day exactly when h is not last of its day, and h-1 exactly when h is not first |
| Timetabling.MapTeacher | complete_encode.py:124-131 | the teachers come in order of first appearance; each teacher's group holds that teacher's courses in dictionary order |
| Timetabling.GroupAbsent | complete_encode.py:128-129 | a teacher who teaches none of the courses has an empty group |
| Timetabling.GroupMembers | complete_encode.py:124-131 | a course is in teacher t's group exactly when it is a course taught by t |
| Timetabling.GroupDistinct | complete_encode.py:124-131 | a group repeats no course |
| Timetabling.TeacherOrderSpec | complete_encode.py:124-131 | each teacher is listed once, every course's teacher is listed, and every listed teacher has a course |
| Variables.DenseSpec | complete_encode.py:148-155 | allocating distinct keys keeps their order and gives the key at position p the id base + p |
| Variables.DenseValid | complete_encode.py:148-155 | the allocated dictionary is injective and every id lies in base .. base+n-1 |
| Variables.RecordSpec | complete_encode.py:148-155 | `id_to_var` maps base + p back to the key at position p and leaves every other id as it was |
| Variables.RecordAppend | complete_encode.py:528-531 | recording two runs of keys one after the other is recording their concatenation |
| Variables.SlotRowSpec | complete_encode.py:150-154 | the inner loop allocates the keys (x, 0) .. (x, n-1), in order, each once |
| Variables.SlotGridFamily | complete_encode.py:148-182 | every key of `get_ch`, `get_cd` or `get_kh` is of that family, with an owner of the list and an index below the bound |
| Variables.SlotGridLength | complete_encode.py:148-182 | `get_ch`, `get_cd` and `get_kh` allocate one key per owner and index |
| Variables.SlotGridMembers | complete_encode.py:148-182 | the keys are exactly (x, i) for x in the owners and 0 <= i < n |
| Variables.SlotGridDistinct | complete_encode.py:148-182 | distinct owners give distinct keys |
| Variables.CrRowSpec | complete_encode.py:166-173 | one course's room keys are (c, r) for the rooms in order, each once |
| Variables.CrGridSpec | complete_encode.py:166-173 | `get_cr` allocates exactly the keys (c, r), |C|*|R| of them, each once |
| Variables.ChrRowSpec | complete_encode.py:189-192 | one (course, slot) row of `get_chr` holds (c, h, r) for the rooms in order, each once |
| Variables.ChrBlockSpec | complete_encode.py:188-192 | one course's block holds (c, h, r) for h < n and every room, each once |
| Variables.ChrGridSpec | complete_encode.py:184-193 | `get_chr` allocates exactly the keys (c, h, r), |C|*n*|R| of them, each once |
| Variables.IdPool.constructor | complete_encode.py:517 | `IDPool(start_from=1)`: the first id handed out is the start value |
| Variables.IdPool.Id | complete_encode.py:152 | `vpool.id()` returns the id one above the previous one and records it as the top |
| Allocation.Allocate | complete_encode.py:152-154 | one allocation step puts the key at the end of the dictionary with the next id, records it in `id_to_var` and advances the pool |
| Allocation.AllocateSlotRow | complete_encode.py:151-154 | the inner loop extends the dense allocation by the keys (x, 0) .. (x, n-1), records each in `id_to_var` and leaves the pool one past the last id |
| Allocation.AllocateCrRow | complete_encode.py:169-172 | the room loop of `get_cr` extends the dense allocation by the keys (c, r) for the rooms in order |
| Allocation.GetSlots | complete_encode.py:148-182 | `get_ch`, `get_cd`, `get_kh`: the dictionary is the dense allocation of the key grid from the pool's next id, `id_to_var` records it, and the pool advances by the number of keys |
| Allocation.GetCr | complete_encode.py:166-173 | the same for `get_cr` over courses and rooms |
| Allocation.AllocateChrRow | complete_encode.py:189-192 | the room loop of `get_chr` extends the dense allocation by one row |
| Allocation.AllocateChrBlock | complete_encode.py:188-192 | the slot and room loops extend it by one course's block |
| Allocation.GetChr | complete_encode.py:184-193 | `get_chr` is the dense allocation of the (course, slot, room) grid |
| Allocation.GetChrIf | complete_encode.py:637 | only the room-slot section allocates the (course, slot, room) family; otherwise the family is empty and the pool does not move |
| Allocation.GetProblemVars | complete_encode.py:528-531 | the allocation calls of a section lay the four (five) families out one after the other from id 1, and the pool stops at the last id |
| Allocation.LaidOutInverse | complete_encode.py:148-193 | for five runs of distinct keys laid out one after the other, `id_to_var` is defined on exactly 1 .. top and is the inverse of the union of the dictionaries |
| Allocation.ProblemLayoutInverse | complete_encode.py:528-531 | after the section's allocation, every id 1 .. top names exactly one key of exactly one family, and `id_to_var` gives it back |
| Allocation.ProblemLayoutCount | complete_encode.py:633-637 | the pool stops at |C|*H + |C|*D + |C|*|R| + |K|*H (+ |C|*H*|R| with the room-slot family) |
| Literals.PresentMembers | complete_encode.py:351-354 | the `if key in d: literals.append(d[key])` loops collect exactly the ids of the held keys |
| Literals.PresentAll | complete_encode.py:351-354 | when every key is held, one literal per key comes out, in order |
| Literals.CollectPresent | complete_encode.py:388-391 | the collecting loop returns that literal list |
| Literals.ImplicationMeaning | complete_encode.py:201 | `[-x, y]` is satisfied exactly when x true forces y true |
| Literals.CoverMeaning | complete_encode.py:205-209 | `[-y] + xs` is satisfied exactly when y true forces one of the xs true |
| Literals.ImplicationsMeaning | complete_encode.py:239-241 | the implications `[-x, y]` for a list of x are satisfied exactly when every true x forces y |
| Literals.EquivalenceMeaning | complete_encode.py:239-247 | the implications plus the cover clause say y is true exactly when one of the xs is |
| Literals.NandMeaning | complete_encode.py:287 | `[-x, -y]` forbids x and y together |
| Literals.Nand4Meaning | complete_encode.py:320 | the four-literal room clash forbids its four variables together |
| Literals.NotMeaning | complete_encode.py:345 | the unit clause `[-x]` forbids x |
| Relations.RelationChCd | complete_encode.py:196-210 | returns one `[-ch(c,h), cd(c, day h)]` per slot key whose day key exists, then per day key `[-cd(c,d)]` followed by the held slot literals of that day |
| Relations.LinkSlotsToDays | complete_encode.py:198-201 | the first loop emits the day link of every slot key, in dictionary order |
| Relations.CoverDay | complete_encode.py:204-209 | the cover clause of one day key: the negated day literal, then the held slot literals of that day |
| Relations.CoverDayKeys | complete_encode.py:203-209 | the second loop emits the cover clause of every day key, in dictionary order |
| Relations.DayLinksMeaning | complete_encode.py:198-201 | the first loop's clauses hold exactly when every taught slot marks its day (where the day key exists) |
| Relations.DayCoversMeaning | complete_encode.py:203-209 | the second loop's clauses hold exactly when every marked day has a taught slot of that day |
| Relations.ChCdMeaning | complete_encode.py:196-210 | an assignment satisfies `relation_ch_cd` exactly when both directions of "course on day d iff taught in some slot of d" hold |
| Relations.LinkCurricula | complete_encode.py:215-218 | the curriculum loop for one slot key emits `[-ch(c,h), kh(k,h)]` for each curriculum containing c whose key exists |
| Relations.RelationChKh | complete_encode.py:212-227 | returns the links of every slot key, then per curriculum-slot key `[-kh(k,h)]` followed by the held literals of k's courses |
| Relations.LinkSlotsToCurricula | complete_encode.py:214-218 | the first loop emits the curriculum links of every slot key, in dictionary order |
| Relations.CoverCurriculumSlot | complete_encode.py:221-226 | the cover clause of one curriculum-slot key: its negated literal, then the held slot literals of its courses |
| Relations.CoverCurricula | complete_encode.py:220-226 | the second loop emits that cover clause for every curriculum-slot key |
| Relations.CurriculumLinksMeaning | complete_encode.py:215-218 | one slot key's links hold exactly when teaching c at h makes every curriculum listing c busy at h |
| Relations.KhLinksMeaning | complete_encode.py:214-218 | the first loop's clauses hold exactly when that is true of every slot key |
| Relations.KhCoversMeaning | complete_encode.py:220-226 | the second loop's clauses hold exactly when a busy curriculum slot has one of its courses taught there |
| Relations.ChKhMeaning | complete_encode.py:212-227 | an assignment satisfies `relation_ch_kh` exactly when both directions hold |
| Relations.ImplyAll | complete_encode.py:239-241 | the first room loop emits `[-chr(c,h,r), ch(c,h)]` for each held room-slot key |
| Relations.RelateSlotRooms | complete_encode.py:235-247 | the slot loop for one course emits, per held slot, the implications and then the cover clause |
| Relations.SlotRoomClauses | complete_encode.py:236-247 | for one (course, slot) the implications of its held rooms, then the cover clause, none when the slot key is missing |
| Relations.RelationChChr | complete_encode.py:229-249 | returns those clauses for every course, in dictionary order |
| Relations.SlotRoomsMeaning | complete_encode.py:239-247 | for one held (c, h), the clauses hold exactly when c is taught at h iff it is taught at h in some room |
| Relations.CourseSlotRoomsMeaning | complete_encode.py:235-247 | the same for every slot of one course |
| Relations.ChChrMeaning | complete_encode.py:229-249 | an assignment satisfies `relation_ch_chr` exactly when ch(c,h) holds iff some chr(c,h,r) holds, for every held (c, h) |
| Relations.RelateRoomSlots | complete_encode.py:257-269 | the room loop for one course emits, per held room, the implications and then the cover clause |
| Relations.RoomLoops | complete_encode.py:258-269 | for one (course, room) the implications of its held slots, then the cover clause, none when the room key is missing |
| Relations.RelationCrChr | complete_encode.py:251-271 | returns those clauses for every course |
| Relations.RoomSlotsMeaning | complete_encode.py:261-269 | for one held (c, r), the clauses hold exactly when c uses r iff it is taught in r in some slot |
| Relations.CourseRoomSlotsMeaning | complete_encode.py:257-269 | the same for every room of one course |
| Relations.CrChrMeaning | complete_encode.py:251-271 | an assignment satisfies `relation_cr_chr` exactly when cr(c,r) holds iff some chr(c,h,r) holds, for every held (c, r) |
| Clashes.ClashPairs | complete_encode.py:282-287 | the pair loops emit the clash clause of positions i < j, in loop order |
| Clashes.ClashRow | complete_encode.py:283-287 | the inner loop emits the clash clauses of position i with every later position, in order |
| Clashes.PairsUpToMeaning | complete_encode.py:282-287 | the clauses of the first m rows hold exactly when no course among the first m occupies the cell together with a later one |
| Clashes.ClashMeaning | complete_encode.py:286-287 | one clash clause holds exactly when the two courses do not both occupy the cell |
| Clashes.PairsMeaning | complete_encode.py:282-287 | the pair clauses of a cell hold exactly when no two courses (by position) both occupy it |
| Clashes.PairsShort | complete_encode.py:279-280 | fewer than two courses give no clause |
| Clashes.GroupClashesShort | complete_encode.py:279-280 | a group below two courses contributes nothing |
| Clashes.ClashGroup | complete_encode.py:277-287 | one group is skipped below two courses, else the slot loop over the pair loops |
| Clashes.GroupClashesMeaning | complete_encode.py:281-287 | a group's clauses hold exactly when no two of its courses are taught in a common slot below n |
| Clashes.CurriculumClashes | complete_encode.py:274-288 | returns the group clauses of every curriculum, in dictionary order |
| Clashes.CurriculumClashesMeaning | complete_encode.py:274-288 | an assignment satisfies `curriculum_clashes` exactly when no two courses of one curriculum share a slot |
| Clashes.TeacherClashes | complete_encode.py:290-304 | returns the group clauses of every `map_teacher` group, teachers in order of first appearance |
| Clashes.TeacherGroupsMeaning | complete_encode.py:293-303 | the clauses of a list of teachers hold exactly when no two different courses of one of them share a slot |
| Clashes.TeacherClashesMeaning | complete_encode.py:290-304 | an assignment satisfies `teacher_clashes` exactly when no two different courses of one teacher share a slot |
| Clashes.RoomClashesBasic | complete_encode.py:306-321 | returns the four-literal clauses, rooms outermost, then slots, then pairs |
| Clashes.RoomClashPairs | complete_encode.py:314-320 | for one room, the slot loop over the pair loops gives that room's four-literal clauses |
| Clashes.RoomSlotPairsMeaning | complete_encode.py:314-320 | one room's clauses hold exactly when no two courses are both taught in a slot and both assigned that room |
| Clashes.RoomClashesBasicMeaning | complete_encode.py:306-321 | an assignment satisfies `room_clashes_basic` exactly when no two courses share a room in a slot |
| Clashes.RoomClashesComplete | complete_encode.py:323-338 | returns the two-literal room-slot clauses, slots outermost, then rooms, then pairs |
| Clashes.SlotClashPairs | complete_encode.py:331-337 | for one slot, the room loop over the pair loops gives that slot's two-literal clauses |
| Clashes.SlotRoomPairsMeaning | complete_encode.py:331-337 | one slot's clauses hold exactly when no two courses are in the same room in that slot |
| Clashes.RoomClashesCompleteMeaning | complete_encode.py:323-338 | an assignment satisfies `room_clashes_complete` exactly when no two courses share a room in a slot |
| Clashes.TimeSlotAvailability | complete_encode.py:340-346 | returns one unit clause per unavailability whose key exists, skipping the others |
| Clashes.AvailabilityMeaning | complete_encode.py:340-346 | an assignment satisfies `time_slot_availability` exactly when no course is taught in a slot listed as unavailable for it |
| Constraints.CapacityRowLoop | complete_encode.py:365-367 | the room loop of one course emits `[-cr(c,r)]` for each too-small room whose key exists |
| Constraints.RoomCapacityHard | complete_encode.py:360-368 | returns those unit clauses for every course |
| Constraints.CapacityRowMeaning | complete_encode.py:365-367 | one course's clauses hold exactly when it uses no room with fewer seats than students |
| Constraints.CapacityHardMeaning | complete_encode.py:360-368 | an assignment satisfies `room_capacity_hard` exactly when no course uses a too-small room |
| Constraints.OverflowLoop | complete_encode.py:378-380 | the slot loop emits `(w, [-chr(c,h,r)])` for each held slot |
| Constraints.CapacitySoftRowLoop | complete_encode.py:375-380 | the room loop of one course emits those for every too-small room, weighted by the seats missing |
| Constraints.RoomCapacitySoftChr | complete_encode.py:370-381 | returns those weighted clauses for every course |
| Constraints.OverflowSlotsSpec | complete_encode.py:378-380 | each slot clause carries weight w, every held slot has one, and all hold exactly when the room is used in no slot |
| Constraints.CapacitySoftRowSpec | complete_encode.py:375-380 | one course's weights are positive, each over-capacity slot has its clause, and all hold exactly when the course never sits in a too-small room |
| Constraints.CapacitySoftSpec | complete_encode.py:370-381 | every weight is positive; each over-capacity (course, slot, room) has its clause weighted by the overflow; all hold exactly when no lecture is in a too-small room |
| Constraints.CapacitySoftCost | complete_encode.py:370-381 | the penalty is zero exactly when no lecture is in a too-small room, and at least the missing seats of any lecture that is |
| Constraints.IsolationAt | complete_encode.py:464-482 | the body of the slot loop: first slot checks h+1, last slot h-1, a middle slot the neighbours it holds |
| Constraints.IsolatedRowLoop | complete_encode.py:463-482 | the slot loop of one curriculum |
| Constraints.IsolatedLecturesHard | complete_encode.py:459-483 | returns the isolation clauses of every curriculum |
| Constraints.IsolatedSoftRowLoop | complete_encode.py:490-509 | the soft slot loop emits the hard row's clauses, each with weight 2 |
| Constraints.IsolatedLecturesSoft | complete_encode.py:485-511 | `isolated_lectures_soft` emits exactly the clauses of `isolated_lectures_hard`, in the same order, each with weight 2 |
| Constraints.IsolationMeaning | complete_encode.py:467-482 | with ppd >= 2 and both same-day neighbours held, the clause of (k, h) holds exactly when a lecture of k at h has a lecture of k next to it on the same day |
| Constraints.IsolatedRowMeaning | complete_encode.py:463-482 | the same for every slot of one curriculum |
| Constraints.IsolatedHardMeaning | complete_encode.py:459-483 | an assignment satisfies `isolated_lectures_hard` exactly when no curriculum has an isolated lecture |
| Constraints.NoNeighbourSinglePeriod | complete_encode.py:141-145 | with one period a day no slot has a neighbour on its own day, so every lecture is isolated |
| Constraints.IsolationSinglePeriod | complete_encode.py:467-471 | with one period a day every slot is first of its day, so the clause of (k, h) says a lecture of k at h forces one at h+1, the next day |
| Constraints.IsolatedRowSinglePeriod | complete_encode.py:463-471 | with one period a day, the clauses of one curriculum chain its busy days: each day but the last forces the next |
| Constraints.IsolatedHardSinglePeriod | complete_encode.py:459-483 | as written, with one period a day an assignment satisfies `isolated_lectures_hard` exactly when every curriculum's busy day (but the last) is followed by a busy day |
| Constraints.IsolatedSoftCost | complete_encode.py:485-511 | every soft isolation clause weighs 2, and the soft form costs nothing exactly when the hard form holds |
| Cardinality.NumberOfLectures | complete_encode.py:348-357 | the clauses and the pool's top are those of one `exactly` request per course with slot literals, threaded through the pool |
| Cardinality.LectureCallsMembers | complete_encode.py:350-356 | exactly the courses with a slot literal make a request, with their own literals and lecture count |
| Cardinality.LectureLiterals | complete_encode.py:352-354 | when every slot key is held, a course's request lists ch(c,0) .. ch(c,n-1) in order |
| Cardinality.RoomStabilityHard | complete_encode.py:383-394 | one `exactly(_, 1)` request per course with a room literal, threaded through the pool |
| Cardinality.StabilityCallsMembers | complete_encode.py:387-393 | exactly the courses with a room literal make a request, with bound 1 |
| Cardinality.MinWorkingDaysHard | complete_encode.py:423-434 | one `at_least` request per course with day literals and a positive minimum |
| Cardinality.MinDaysCallsMembers | complete_encode.py:426-433 | exactly those courses make a request, with their minimum |
| Cardinality.WeighStability | complete_encode.py:415-419 | the weight loop gives output 0 weight 0 and each later output weight 1, negated |
| Cardinality.RoomStabilitySoft | complete_encode.py:396-421 | per course: nothing without room literals, `(0, lits)` for one, else a totalizer whose top becomes the pool's top and whose outputs are weighted |
| Cardinality.StabilityCourseOut | complete_encode.py:402-419 | one course's weighted clauses and totalizer clauses, and the pool top they leave, are the per-course definition started at the old top |
| Cardinality.StabilityWeightsSpec | complete_encode.py:415-419 | one soft unit clause per output: `(0, [rhs[0]])`, then `(1, [-rhs[i]])` |
| Cardinality.WeighMinDays | complete_encode.py:453-455 | the `range(k - 1, 0, -1)` loop gives the weights of `MinDaysWeights` |
| Cardinality.MinWorkingDaysSoft | complete_encode.py:436-457 | per course: skipped without literals, for k <= 0 or k above the literal count; else a totalizer whose top becomes the pool's top |
| Cardinality.MinDaysWeightsSpec | complete_encode.py:453-455 | at most k-1 clauses, each `(5, [rhs[j]])` for 1 <= j < k indexing rhs, in decreasing j; all k-1 when rhs has at least k outputs |
| Cardinality.MinDaysCourseSkip | complete_encode.py:446-455 | a course is skipped, leaving the top unchanged, exactly in the three skip cases; otherwise at most k-1 weight-5 unit clauses |
| Cardinality.StabilityWeightsCost | complete_encode.py:415-419 | with outputs 0 .. m-1 true, the stability weights cost at least min(m, outputs) - 1 |
| Cardinality.StabilityWeightsFree | complete_encode.py:415-419 | output 0 true and every other output false cost nothing |
| Cardinality.StabilityVacuous | complete_encode.py:412-419 | as written, for any assignment there is one that agrees with it on every id up to the pool's top (the schedule) and makes the course's stability clauses cost nothing |
| Cardinality.StabilityCost | complete_encode.py:412-419 | with the totalizer's clauses kept hard, a course using m rooms pays at least m - 1 (up to the outputs) |
| Cardinality.MinDaysWeightsFree | complete_encode.py:453-455 | every output true makes the working-day weights cost nothing |
| Cardinality.MinDaysVacuous | complete_encode.py:450-455 | as written, for any assignment there is one that agrees with it on every id up to the pool's top (the schedule) and makes the course's working-day clauses cost nothing |
| Sections.LayoutShaped | complete_encode.py:528-531 | the section layout gives each family its own kind of key and positive ids, and the curriculum dictionary holds every (curriculum, slot) key |
| Sections.EncodeBasic | complete_encode.py:533-538 | the six generators every SAT-style section starts with, in their order |
| Sections.EncodeHard42 | complete_encode.py:603-611 | the hard part of section 4.2, the pool threaded through the cardinality requests |
| Sections.EncodeHard41 | complete_encode.py:568-577 | the hard part of section 4.1: that of 4.2 plus the minimum working days |
| Sections.EncodeSection3 | complete_encode.py:514-546 | section 3: everything hard, soft list empty, over the section layout |
| Sections.EncodeSection41 | complete_encode.py:548-581 | section 4.1: isolated lectures become weight-2 soft clauses |
| Sections.EncodeSection42 | complete_encode.py:583-616 | section 4.2: minimum working days become weight-5 soft clauses too |
| Sections.EncodeSection44 | complete_encode.py:618-654 | section 4.4 as written: room-slot variables, both chr relations, complete room clashes; capacity, stability, working days and isolation soft; the room-stability totalizer's clauses are in neither list |
| Sections.Section44KeepsTotalizers | complete_encode.py:412-419 | keeping the room-stability totalizer's clauses as hard clauses changes only the hard list: it then asks what section 4.4 as written asks plus those clauses, with the same soft list and pool top |
| Sections.Section3Is41AtZeroCost | complete_encode.py:514-581 | section 3 has no soft clauses, and an assignment satisfies it exactly when it satisfies 4.1's hard part at zero soft cost; same pool top |
| Sections.Section42Relaxes41 | complete_encode.py:548-616 | every assignment satisfying 4.1's hard part satisfies 4.2's, and 4.2's soft cost is 4.1's plus the working-day penalty |
| BasicGenerators.Assign | basic_encoder.py:267-269 | one step: the key gets id n_var in the dictionary and in `id_to_var`, and n_var advances |
| BasicGenerators.AssignSlotRow | basic_encoder.py:265-269 | the inner loop of `get_ch` (`get_cd`, `get_kh`) extends the dense allocation by (x, 0) .. (x, n-1) and advances n_var past them |
| BasicGenerators.AssignCrRow | basic_encoder.py:283-287 | the room loop of `get_cr` extends the dense allocation by (c, r) for the rooms in order |
| BasicGenerators.GetSlotsFrom | basic_encoder.py:263-270 | `get_ch`, `get_cd`, `get_kh`: the dense allocation of the key grid from n_var; the result is one past the last id (encoder.py:120-127 is the same code) |
| BasicGenerators.GetCrFrom | basic_encoder.py:281-288 | `get_cr`: the dense allocation of (course, room) from n_var (encoder.py:138-145 is the same code) |
| BasicGenerators.GetVarsFrom1 | basic_encoder.py:20-26 | from n_var = 1 the four calls give the complete encoder's layout, and the counter ends one past the last id, where the pool then starts |
| BasicGenerators.ChFull | basic_encoder.py:263-270 | `get_ch` holds exactly the keys (c, h) for every course and slot |
| BasicGenerators.CdFull | basic_encoder.py:272-279 | `get_cd` holds exactly the keys (c, d) for every course and day |
| BasicGenerators.CrFull | basic_encoder.py:281-288 | `get_cr` holds every (course, room) key |
| BasicGenerators.LayoutFull | basic_encoder.py:20-23 | the layout is shaped like the complete encoder's and holds the full grid |
| BasicGenerators.SlotDayInGrid | basic_encoder.py:250-251 | the day of a grid slot is a day of the grid, so the unchecked `cd[(c, d)]` finds its key |
| BasicGenerators.DayHoursInGrid | basic_encoder.py:256-257 | the slots of a grid day are grid slots, so the unchecked `ch[(c, h)]` finds its key |
| BasicGenerators.DayCoverStrict | basic_encoder.py:256-259 | on the full grid the cover clause lists the ids of all ppd slots of the day, in order |
| BasicGenerators.DayClause | basic_encoder.py:256-260 | the unchecked cover clause of one day key, equal to the checked definition when every lookup succeeds |
| BasicGenerators.DaySlots | basic_encoder.py:257 | the comprehension over the day's slots gives that list |
| BasicGenerators.LinkDays | basic_encoder.py:248-252 | one link per slot key, |ch| of them |
| BasicGenerators.CoverDays | basic_encoder.py:254-260 | one cover per day key |
| BasicGenerators.RelationChCdStrict | basic_encoder.py:236-261 | without the membership tests the same list as the complete encoder's `relation_ch_cd`: |ch| links then |cd| covers (encoder.py:93-118 is the same code) |
| BasicGenerators.GridDayLookups | basic_encoder.py:248-257 | on the full grid every lookup of `relation_ch_cd` succeeds |
| BasicGenerators.TimeSlotAvailabilityStrict | basic_encoder.py:135-141 | one unit clause per unavailability, none skipped: the complete encoder's list |
| BasicGenerators.CInK | basic_encoder.py:226-233 | the loops return `CurriculaOf`, one entry per occurrence of c in a curriculum (encoder.py:83-90 is the same code) |
| BasicGenerators.OccurrencesSpec | basic_encoder.py:230-232 | one curriculum contributes only its own id, and does so exactly when it lists c; once when its courses are distinct |
| BasicGenerators.CurriculaOfSpec | basic_encoder.py:226-233 | `c_in_k(c)` lists exactly the curricula containing c, each once when no list repeats an entry |
| BasicGenerators.LinkVia | basic_encoder.py:212-214 | the loop over `c_in_k`'s result emits a link for each curriculum whose key exists |
| BasicGenerators.CurriculumSlots | basic_encoder.py:220 | the comprehension lists ch(course, h) for every course of the curriculum |
| BasicGenerators.LinkListed | basic_encoder.py:209-214 | the first loop of the older `relation_ch_kh` |
| BasicGenerators.CoverNonEmpty | basic_encoder.py:216-223 | the second loop: a cover clause per key of a curriculum with courses |
| BasicGenerators.CurriculumClause | basic_encoder.py:219-223 | the unchecked cover clause of one curriculum-slot key, equal to the checked definition when every lookup succeeds |
| BasicGenerators.RelationChKhStrict | basic_encoder.py:207-224 | returns the links through `c_in_k`, then the cover clauses of non-empty curricula (encoder.py:64-81 is the same code) |
| BasicGenerators.LinksViaCurricula | basic_encoder.py:209-214 | through `c_in_k` a slot key gets the complete encoder's links, in the same order |
| BasicGenerators.ListedLinksAgree | basic_encoder.py:209-214 | the first loop emits the complete encoder's first-loop list |
| BasicGenerators.NonEmptyCoversMeaning | basic_encoder.py:216-223 | the covers hold exactly when a busy slot of a curriculum with courses has one of them taught |
| BasicGenerators.ListedChKhMeaning | basic_encoder.py:207-224 | an assignment satisfies the older `relation_ch_kh` exactly when the links hold and busy slots of non-empty curricula are covered; an empty curriculum is left free |
| BasicGenerators.ListedChKhAgrees | basic_encoder.py:207-224 | when every curriculum has a course, the older list is the complete encoder's list |
| BasicGenerators.NonEmptyCoversAll | basic_encoder.py:216-223 | when every curriculum has a course, no cover clause is skipped |
| BasicConstraints.HoursOfGrid | basic_encoder.py:196 | for `get_ch`'s keys, `[h for (c, h) in ch]` is 0 .. n-1 once per course |
| BasicConstraints.HoursOfMembers | basic_encoder.py:175 | a slot is in that list exactly when some key names it |
| BasicConstraints.ClashGroupOver | basic_encoder.py:197-204 | the slot loop over the pair loops for one group, over the given slot list |
| BasicConstraints.SlotListRange | basic_encoder.py:197-204 | over 0 .. n-1, once each, a group gets the complete encoder's clauses |
| BasicConstraints.SlotListRepeat | basic_encoder.py:196-204 | over the slot list repeated m times, a group gets m copies of the complete encoder's clauses |
| BasicConstraints.SlotListClashesMeaning | basic_encoder.py:197-204 | a group's clauses hold exactly when no two of its courses share a listed slot |
| BasicConstraints.CurriculumClashesOver | basic_encoder.py:191-205 | returns the group clauses of every curriculum over the slot list of the keys (encoder.py:48-62 is the same code) |
| BasicConstraints.ListedCurriculumMeaning | basic_encoder.py:191-205 | an assignment satisfies the older `curriculum_clashes` exactly when no two courses of a curriculum share a listed slot |
| BasicConstraints.ListedCurriculumCopies | basic_encoder.py:191-205 | with `get_ch`'s keys for m courses, every clause of the complete encoder's `curriculum_clashes` comes out exactly m times as often |
| BasicConstraints.TeacherClashesMispaired | basic_encoder.py:170-189 | returns the clauses as written: positions i < j of each teacher's group size, taken in the instance-wide course list, over the duplicated slot list (encoder.py:25-44 is the same code) |
| BasicConstraints.MispairedMeaning | basic_encoder.py:180-188 | what that list forbids: the courses at positions i < j < g of the instance-wide list, whoever teaches them |
| BasicConstraints.TeacherClashesMispairing | basic_encoder.py:183-184 | a concrete instance on which the as-written list lets one teacher's two courses share a slot, which the intended list forbids |
| BasicConstraints.RoomsAtLoop | basic_encoder.py:150-166 | the room and pair loops for one slot |
| BasicConstraints.RoomClashesOver | basic_encoder.py:143-167 | returns those clauses for every slot of the slot set |
| BasicConstraints.RoomsAtMeaning | basic_encoder.py:150-166 | one slot's clauses hold exactly when no two courses share a room in it |
| BasicConstraints.RoomClashesByHourMeaning | basic_encoder.py:143-167 | an assignment satisfies the older `room_clashes` exactly when no two courses share a room in a listed slot |
| BasicConstraints.RoomClashesByHourAgrees | basic_encoder.py:143-167 | over 0 .. n-1, slots outermost accepts the same assignments as the complete encoder's rooms-outermost list |
| BasicConstraints.BareCapacityRowLoop | basic_encoder.py:117-120 | the room loop of one course appends `-cr(c,r)` for each too-small room |
| BasicConstraints.RoomCapacityBare | basic_encoder.py:113-122 | `room_capacity` as written: a list of bare literals |
| BasicConstraints.BareCapacityUnits | basic_encoder.py:113-122 | wrapped as unit clauses, those literals are exactly the complete encoder's `room_capacity_hard` list |
| BasicConstraints.BareCapacityNonEmpty | basic_encoder.py:113-122 | the literal list is non-empty exactly when some course has more students than some room has seats |
| BasicConstraints.CapacityNonEmpty | complete_encode.py:360-368 | on the full grid, `room_capacity_hard` is non-empty exactly when some course exceeds some room |
| BasicConstraints.IsolationBothAt | basic_encoder.py:58-75 | the body of the slot loop: first slot checks h+1, last slot h-1, a middle slot needs both neighbours |
| BasicConstraints.IsolatedBothRowLoop | basic_encoder.py:57-75 | the slot loop of one curriculum |
| BasicConstraints.IsolatedLecturesBoth | basic_encoder.py:52-77 | returns the isolation clauses of every curriculum |
| BasicConstraints.IsolationBothAgrees | basic_encoder.py:70-75 | inside a full row of whole days a middle slot has both neighbours, so the older and the complete rule give the same clause |
| BasicConstraints.IsolatedBothAgrees | basic_encoder.py:52-77 | when every curriculum holds all its slots, the older list is `isolated_lectures_hard`'s list |
| BasicConstraints.SlotLitsLoop | basic_encoder.py:130-131 | the slot loop looks up ch(c, h) for every slot of the set |
| BasicConstraints.NumberOfLecturesOver | basic_encoder.py:124-133 | one `exactly` request per course, with no skip for an empty literal list, threaded through the pool |
| BasicConstraints.ListedLectureCallsAgree | basic_encoder.py:124-133 | over 0 .. n-1 with n >= 1, the older requests are the complete encoder's |
| BasicAssembly.DraftReadyFromLayout | encoder.py:14-22 | when every curriculum lists known courses, the dictionaries encoder.py allocates hold every key its generators look up unchecked; the unavailabilities, which encoder.py never reads, are unconstrained |
| BasicAssembly.ReadyFromLayout | basic_encoder.py:20-23 | on a well-formed instance the allocated dictionaries hold every key the generators look up unchecked |
| BasicAssembly.CurriculumLookupsFromGrid | encoder.py:72-79 | on the full grid the lookups `ch[course, h]` of `relation_ch_kh` find their keys |
| BasicAssembly.KhInGrid | basic_encoder.py:290-297 | `get_kh` makes only keys of grid slots |
| BasicAssembly.LookupsFromGrid | basic_encoder.py:216-223 | on the full grid the lookups of `relation_ch_kh` and `time_slot_availability` find their keys |
| BasicAssembly.SlotHours | basic_encoder.py:126 | the slot set `{h for (c, h) in ch}`: distinct, ascending, and exactly 0 .. n-1 when there is a course |
| BasicAssembly.SlotHoursAreKeySlots | basic_encoder.py:145 | a slot is in the set exactly when some key of ch names it |
| BasicAssembly.EncoderOutput | basic_encoder.py:46-50 | type 0 gives the single MaxSAT list, type 1 the hard/soft pair, anything else nothing; the hard list is the written one, bare capacity literals included |
| BasicAssembly.DraftEncoder | encoder.py:5-23 | encoder.py's four allocations and four generators, in order, as written: `teacher_clashes` pairs positions of the instance-wide course list |
| BasicAssembly.Encoder | basic_encoder.py:6-50 | basic_encoder.py's allocations, pool and generators, in order, as written (the mispaired teacher list, the bare capacity literals), and the output its type selects |
| BasicAssembly.HardBeforePart | basic_encoder.py:29-37 | the relation, clash, availability and lecture-count clauses as written, in the encoder's order, with the pool top they leave |
| BasicAssembly.HardMiddlePart | basic_encoder.py:34-37 | `room_clashes`, `time_slot_availability` and `number_of_lectures` over the slot set, with the pool top the lecture counts leave |
| BasicAssembly.EncoderHardPart | basic_encoder.py:29-39 | the whole hard list as written: the clauses so far, then each capacity literal as a bare element, then room stability's clauses, and the pool top it leaves |
| BasicAssembly.EncoderSoftPart | basic_encoder.py:40-41 | the soft list (minimum working days, isolated lectures), started at the pool top the hard part left |
| BasicAssembly.DraftEncoderOver | basic_encoder.py:29-33 | the first four generators as written (encoder.py:18-22 is the same code), shared by both encoders |
| BasicAssembly.CurriculumPieceAgrees | basic_encoder.py:191-205 | the older `curriculum_clashes` accepts the same assignments as the complete encoder's |
| BasicAssembly.RoomPieceAgrees | basic_encoder.py:143-167 | the older `room_clashes` over the slot set accepts the same assignments as `room_clashes_basic` |
| BasicAssembly.LecturePieceAgrees | basic_encoder.py:124-133 | with a slot, the older `number_of_lectures` makes the complete encoder's requests |
| BasicAssembly.PrefixAgrees | basic_encoder.py:29-32 | when every curriculum has a course, the two relations and the curriculum clashes of the older encoders accept the same assignments as the complete encoder's |
| BasicAssembly.DraftMeaning | encoder.py:18-22 | when every curriculum has a course, encoder.py's clauses as written ask for the complete encoder's relations and curriculum clashes and, instead of teacher clashes, that the courses at positions i < j < g of the course list share no listed slot, g the size of some teacher's group |
| BasicAssembly.ListedSlotsInGrid | basic_encoder.py:175 | the slots listed from the keys of ch are exactly the grid's slots, once there is a course |
| BasicAssembly.DraftCorrectedAgrees | encoder.py:18-22 | with the corrected `teacher_clashes`, and when every curriculum has a course, encoder.py's clauses accept the same assignments as the complete encoder's first four generators |
| BasicAssembly.CorrectedHardAgrees | basic_encoder.py:29-39 | with the corrected `teacher_clashes` and the capacity literals as unit clauses, a slot and a course in every curriculum, the hard list accepts the same assignments as section 4.2's hard list and leaves the same pool top |
| BasicAssembly.CorrectedIsSection3 | basic_encoder.py:6-50 | with both corrections and under the same conditions, both outputs ask of an assignment exactly what section 3 asks, with the same pool top, which is also the written encoder's |
| BasicAssembly.MaxSatJoinsPartial | basic_encoder.py:46-48 | the MaxSAT list is the hard list as written followed by the soft list |
| BasicAssembly.DraftStartsHard | basic_encoder.py:29-33 | encoder.py's clause list is where basic_encoder.py's hard list starts |
| BasicAssembly.WrittenHardHoldsLiterals | basic_encoder.py:38 | as written, the hard list holds a non-clause exactly when some course has more students than some room has seats |
| BasicAssembly.CorrectionsOnly | basic_encoder.py:33-39 | the corrected hard list is the written one with the teacher block of encoder.py replaced and each bare literal wrapped as a unit clause; both end at the same pool top |

## Left out

- pysat (`CardEnc.equals`, `CardEnc.atleast`, `ITotalizer`, `IDPool`) is an external library
  whose code is not part of this model. The encoders are a `CardLib` parameter. What the model
  needs of them is stated as the predicates `Fresh` and `Counts`, which callers require. The
  pool is modelled by its counter alone.
- `vpool._top = tot.top_id` is modelled as intended: the pool's top becomes the totalizer's
  top. pysat's internal field layout is not part of this model. If `_top` is not the counter
  `IDPool` draws from, every `ITotalizer` starts from the same `vpool.top`, so the output ids
  of different courses repeat, and in section 4.4 the `(1, [-rhs])` stability units share ids
  with the `(5, [rhs])` working-day units.
- File parsing (`parse_ctt`, classes_ctt.py), the solver calls (`solve_sat`,
  `solve_maxsat_rc2`), timing, printing (`print(type_sat)`, encoder.py's final `print`) and the
  `__main__` blocks are input/output. The instance is a parameter. encoder.py's `encoder`
  prints its list and returns nothing; the model returns the list.
- The float computation in `day` is modelled as exact integer arithmetic.
- basic_encoder.py and encoder.py import `map_teacher`, `exactly`, `at_least`,
  `is_first_slot_of_day`, `is_last_slot_of_day` and `teacher` from utils.py, which does not
  define them. The model uses the definitions of complete_encode.py.
- The older `min_working_days` calls `at_least(k, literals, vpool)` with the first two
  arguments swapped. The model makes the request with the intended roles (literals, bound),
  since the swapped call is a failure inside the library.
- Python sets: the older `room_clashes` and `number_of_lectures` iterate the set of slots
  `{h for (c, h) in ch}`. The model assumes ascending order. Python does not promise an order,
  so a different order would permute the clauses and the cardinality requests.
- The unchecked dictionary lookups of the older encoders raise `KeyError` on a missing key.
  The model requires the keys instead. encoder.py looks up only the keys of `relation_ch_kh`
  and `relation_ch_cd` (`DraftWellFormed`, `DraftReady`). basic_encoder.py also looks up the
  unavailabilities (`WellFormed`, `Ready`). The model proves that the allocated grid holds
  these keys when every curriculum lists known courses and, for basic_encoder.py, every
  unavailability names a course and a slot of the grid.
- A `periods_per_day` of 0 is excluded by `Instance.Valid` as a degenerate instance without
  slots. The source runs on it: `total_hours` is 0, so no slot variable is made, `day` and the
  first/last-slot tests are never reached, and `relation_ch_cd` gives each day variable the
  unit clause `[-cd(c, d)]`, since `hour_for_day(d, 0)` lists no slot.
- The duplicated slot lists of the older `curriculum_clashes` and `teacher_clashes` are kept.
  The agreement lemmas compare satisfying assignments, and `ListedCurriculumCopies` counts
  the copies. The corrected teacher list uses the slots 0 .. n-1 once.
- BasicAssembly.CorrectedIsSection3: stated only for instances with at least one slot and a
  course in every curriculum. With no slot the older `number_of_lectures` makes requests with
  empty literal lists where the complete encoder skips them. For a curriculum without courses,
  the older `relation_ch_kh` emits no cover clause where the complete encoder's forbids a busy
  slot.
- Constraints.IsolationMeaning: stated for `periods_per_day >= 2`. With one period a day every
  slot is the first of its day, so the clause asks for a lecture the next day;
  `IsolationSinglePeriod` states that case, and `NoNeighbourSinglePeriod` shows that every
  lecture is then isolated. No corrected form for one period a day is modelled.
- Constraints.IsolatedRowMeaning: stated for `periods_per_day >= 2`; the one-period case is
  `IsolatedRowSinglePeriod`, which chains the curriculum's busy days.
- Constraints.IsolatedHardMeaning: stated for `periods_per_day >= 2`; with one period a day the
  list does not forbid isolated lectures but chains busy days, as `IsolatedHardSinglePeriod`
  states.
- Cardinality.MinWorkingDaysSoft: as written, the totalizer's own clauses are dropped here
  too, so `MinDaysVacuous` shows the weights cost nothing. No corrected form is modelled. The
  `Counts` predicate states only that enough true inputs force an output true, and that gives
  no lower bound for these positive unit clauses.
- Concurrency and resource exhaustion: the source has none, and integers are unbounded.

## Findings

| source | as written | input that shows it | evidently intended | confidence | as-written member | corrected member |
|---|---|---|---|---|---|---|
| basic_encoder.py:183-184 | `teacher_clashes` pairs `c[i]`, `c[j]` of the instance-wide course list, for i < j below the teacher's group size (also encoder.py:38-39) | one slot; course a with teacher T, courses b and c with teacher U: the list forbids a with b (three times) and lets b and c share the slot | pair the teacher's own courses, as complete_encode.py:300-301 does | high; not executed | BasicConstraints.TeacherClashesMispairing | Clashes.TeacherClashesMeaning |
| basic_encoder.py:120 | `room_capacity` appends the bare integer `-cr[(c, r)]`, which `encoder` then adds to the clause list (line 38) | any course with more students than some room has seats | append the unit clause `[-cr[(c, r)]]`, as complete_encode.py:367 does | high; not executed | BasicAssembly.WrittenHardHoldsLiterals | BasicConstraints.BareCapacityUnits |
| complete_encode.py:412-419 | `room_stability_soft` builds a totalizer but never adds its clauses to any list, so its outputs are free variables | a course with two room literals, both true: outputs 0 true and 1 false cost nothing | keep the totalizer's clauses as hard clauses, so using m rooms costs m - 1 | high; not executed | Cardinality.StabilityVacuous | Cardinality.StabilityCost |
