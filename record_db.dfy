/**
 * The record store of record_db.py.  A `RecordDB` keeps, for every known
 * user, the records of each question the user attempted (in order), a
 * correct/wrong tally per concept, and the timestamp of the user's last
 * attempt.  `GenRecord` simulates one attempt: it places the attempt in the
 * user's simulated time, picks one of three correctness-probability
 * policies, samples the outcome, and appends the new record.
 *
 * Every random draw and the wall clock are parameters (`Draws`);
 * timestamps are integer microseconds since the epoch.
 */
module RecordStore {
  import opened Wrappers
  import opened Common
  import opened Profiles

  type UserId = string
  type QuestionId = string
  type ConceptId = string

  /** A question: its id, its linked concepts (a set, so no repeats) and the answer letter per difficulty. */
  datatype Question = Question(id: QuestionId, concepts: seq<ConceptId>, answers: map<OptionDiffLevel, char>)

  /** One attempt; `timeSpent` is in seconds, `timestamp` in microseconds. */
  datatype Record = Record(
    concepts: seq<ConceptId>,
    level: OptionDiffLevel,
    correctAnswer: char,
    userAnswer: char,
    timeSpent: int,
    timestamp: int)

  /** The `[#Correct, #Wrong]` pair kept per concept. */
  datatype Tally = Tally(correct: nat, wrong: nat)

  datatype Error =
    | UnknownUser        // the ValueError for an id without a profile
    | EmptyQuestionPool  // `choice` on an empty question list
    | MissingAnswer      // the KeyError of `answers[level]`
    | AnswerNotAnOption  // `list.remove` of a correct answer outside "ABCD"

  const Options: string := "ABCD"

  const Second: int := 1000000
  const Minute: int := 60 * Second
  const Hour: int := 60 * Minute
  const Day: int := 24 * Hour

  predicate NoDup<T(==)>(s: seq<T>)
  {
    forall i, j :: 0 <= i < j < |s| ==> s[i] != s[j]
  }

  /**
   * The random draws of one `gen_record` call and the wall clock it reads.
   * `sessionU` and `outcomeU` are the uniform draws behind `random() < 0.9`
   * and `choices([True, False], weights=[p, 1 - p])`, which yields True
   * exactly when its draw is below `p`.
   */
  datatype Draws = Draws(
    question: nat,        // index picked by choice(questions)
    sessionU: real,       // random()
    micros: int,          // randint(15, 45)
    sessionMinutes: int,  // randint(1, 10), continuous session
    sessionSeconds: int,  // randint(1, 59), continuous session
    days: int,            // randint(1, 30), new session
    hours: int,           // randint(1, 23), new session
    minutes: int,         // randint(1, 59), new session
    seconds: int,         // randint(1, 59), new session
    spentMinutes: int,    // randint(0, 15)
    spentSeconds: int,    // randint(1, 59)
    level: OptionDiffLevel,
    luck: int,            // randint(0, 1)
    outcomeU: real,       // the draw inside choices
    wrongPick: nat,       // index picked by choice among the three other letters
    now: int)             // datetime.now()
  {
    /** The ranges the random functions guarantee. */
    predicate InRange()
    {
      && 0.0 <= sessionU < 1.0
      && 15 <= micros <= 45
      && 1 <= sessionMinutes <= 10 && 1 <= sessionSeconds <= 59
      && 1 <= days <= 30 && 1 <= hours <= 23 && 1 <= minutes <= 59 && 1 <= seconds <= 59
      && 0 <= spentMinutes <= 15 && 1 <= spentSeconds <= 59
      && 0 <= luck <= 1
      && 0.0 <= outcomeU < 1.0
      && wrongPick < |Options| - 1
    }
  }

  // ---------------------------------------------------------------------
  // Time

  /**
   * The submission time: `now` for a user's first attempt; otherwise the
   * last time plus a short offset within a continuous session (probability
   * 0.9) or a long one that starts a new session.
   */
  function NextTimestamp(last: Option<int>, d: Draws): (t: int)
    requires d.InRange()
    ensures last == None ==> t == d.now
    ensures last.Some? && d.sessionU < 0.9 ==>
      last.value + Minute + Second + 15 <= t <= last.value + 10 * Minute + 59 * Second + 45
    ensures last.Some? && d.sessionU >= 0.9 ==>
      last.value + Day + Hour + Minute + Second + 15 <= t
      <= last.value + 30 * Day + 23 * Hour + 59 * Minute + 59 * Second + 45
    ensures last.Some? ==> last.value < t
  {
    match last
    case None => d.now
    case Some(lastTime) =>
      if d.sessionU < 0.9 then
        lastTime + (d.sessionMinutes * 60 + d.sessionSeconds) * Second + d.micros
      else
        lastTime + d.days * Day + (d.hours * 60 * 60 + d.minutes * 60 + d.seconds) * Second + d.micros
  }

  /** The time spent on the question, in seconds. */
  function TimeSpent(d: Draws): (s: int)
    requires d.InRange()
    ensures 1 <= s <= 15 * 60 + 59
  {
    d.spentMinutes * 60 + d.spentSeconds
  }

  /**
   * Whole hours from `now` to `latest`, floored: the total seconds of
   * `latest - now` floor-divided by 60 twice.  Dafny's `/` on integers
   * floors for a positive divisor, like Python's `//`.
   */
  function HourGap(latest: int, now: int): (h: int)
    ensures h * Hour <= latest - now < (h + 1) * Hour
  {
    FloorDivTwice(latest - now, Minute, 60);
    (latest - now) / Minute / 60
  }

  lemma FloorDivTwice(x: int, a: int, b: int)
    requires a > 0 && b > 0
    ensures (x / a / b) * (a * b) <= x < (x / a / b + 1) * (a * b)
  {
    var q1 := x / a;
    var q2 := q1 / b;
    assert q1 * a <= x < (q1 + 1) * a;
    assert q2 * b <= q1 < (q2 + 1) * b;
    assert q2 * (a * b) == (q2 * b) * a;
    MulLe(q2 * b, q1, a);
    MulLe(q1 + 1, (q2 + 1) * b, a);
    assert (q2 + 1) * (a * b) == ((q2 + 1) * b) * a;
  }

  lemma MulLe(x: int, y: int, a: int)
    requires x <= y && a > 0
    ensures x * a <= y * a
  {
  }

  /**
   * The timestamp of the first record after sorting by descending
   * timestamp: the greatest timestamp among the records.
   */
  function LatestTimestamp(recs: seq<Record>): (t: int)
    requires recs != []
    ensures exists i :: 0 <= i < |recs| && recs[i].timestamp == t
    ensures forall i :: 0 <= i < |recs| ==> recs[i].timestamp <= t
  {
    if |recs| == 1 then recs[0].timestamp
    else
      var rest := LatestTimestamp(recs[1..]);
      if recs[0].timestamp >= rest then recs[0].timestamp else rest
  }

  // ---------------------------------------------------------------------
  // Answer letters

  /** `list.remove`: drops the first occurrence of `x`. */
  function RemoveFirst(s: seq<char>, x: char): (r: seq<char>)
    requires x in s
    ensures |r| == |s| - 1
    ensures forall y :: y in r ==> y in s
    ensures forall y :: y in s && y != x ==> y in r
    ensures NoDup(s) ==> NoDup(r) && x !in r
  {
    if s[0] == x then s[1..]
    else
      var rest := RemoveFirst(s[1..], x);
      assert NoDup(s) ==> NoDup(s[1..]) && s[0] !in s[1..] && s[0] !in rest;
      assert forall i :: 0 < i < |rest| + 1 ==> ([s[0]] + rest)[i] == rest[i - 1];
      [s[0]] + rest
  }

  /**
   * `answering`: the correct letter when the attempt succeeds, otherwise
   * the letter at `pick` among the options other than the correct one.
   */
  function Answering(correctness: bool, answer: char, pick: nat): (r: Result<char, Error>)
    requires pick < |Options| - 1
    ensures correctness ==> r == Success(answer)
    ensures !correctness && answer !in Options ==> r == Failure(AnswerNotAnOption)
    ensures !correctness && answer in Options ==> r.Success? && r.value in Options && r.value != answer
  {
    if correctness then Success(answer)
    else if answer !in Options then Failure(AnswerNotAnOption)
    else
      assert NoDup(Options);
      Success(RemoveFirst(Options, answer)[pick])
  }

  /** Every wrong letter is reachable: each option other than the answer is some pick's result. */
  lemma {:induction false} AnsweringCoversOtherOptions(answer: char, x: char)
    requires answer in Options && x in Options && x != answer
    ensures exists pick :: 0 <= pick < |Options| - 1 && Answering(false, answer, pick) == Success(x)
  {
    var others := RemoveFirst(Options, answer);
    var k :| 0 <= k < |others| && others[k] == x;
    assert Answering(false, answer, k) == Success(x);
  }

  // ---------------------------------------------------------------------
  // Correctness probability

  /**
   * The fixed probability of a repeated question by the hour gap to its
   * latest attempt: fixed exactly up to 30 weeks, and never rising as the
   * gap grows (see `RecencyAntitone`).
   */
  function RecencyProbability(hours: int): (r: Option<real>)
    ensures r.None? <==> hours > 30 * 7 * 24
    ensures r.Some? ==> 0.8 <= r.value <= 0.9
  {
    if hours <= 24 then Some(0.9)
    else if hours <= 7 * 24 then Some(0.85)
    else if hours <= 30 * 7 * 24 then Some(0.8)
    else None
  }

  /** An older latest attempt never gets a higher fixed probability. */
  lemma RecencyAntitone(h1: int, h2: int)
    requires h1 <= h2 <= 30 * 7 * 24
    ensures RecencyProbability(h2).value <= RecencyProbability(h1).value
  {
  }

  /** The tallies of the linked concepts that have one, in concept order. */
  function LinkedTallies(tallies: map<ConceptId, Tally>, concepts: seq<ConceptId>): (ts: seq<Tally>)
    ensures |ts| <= |concepts|
    ensures forall c :: c in concepts && c in tallies ==> tallies[c] in ts
    ensures forall t :: t in ts ==> exists c :: c in concepts && c in tallies && tallies[c] == t
  {
    if concepts == [] then []
    else
      var rest := LinkedTallies(tallies, concepts[1..]);
      assert forall c :: c in concepts[1..] ==> c in concepts;
      assert forall c :: c in concepts ==> c == concepts[0] || c in concepts[1..];
      (if concepts[0] in tallies then [tallies[concepts[0]]] else []) + rest
  }

  /** Without repeated concepts, one tally per linked concept that has one. */
  lemma {:induction false} LinkedTalliesCount(tallies: map<ConceptId, Tally>, concepts: seq<ConceptId>)
    requires NoDup(concepts)
    ensures |LinkedTallies(tallies, concepts)| == |set c | c in concepts && c in tallies|
  {
    if concepts != [] {
      var c0 := concepts[0];
      var head := if c0 in tallies then [tallies[c0]] else [];
      calc {
        |LinkedTallies(tallies, concepts)|;
      == { assert LinkedTallies(tallies, concepts) == head + LinkedTallies(tallies, concepts[1..]); }
        |head| + |LinkedTallies(tallies, concepts[1..])|;
      == { LinkedTalliesCount(tallies, concepts[1..]); }
        |head| + |set c | c in concepts[1..] && c in tallies|;
      == { HavingTallySplit(tallies, concepts); }
        |set c | c in concepts && c in tallies|;
      }
    }
  }

  lemma HavingTallySplit(tallies: map<ConceptId, Tally>, concepts: seq<ConceptId>)
    requires NoDup(concepts) && concepts != []
    ensures var c0 := concepts[0];
      |set c | c in concepts && c in tallies|
      == |set c | c in concepts[1..] && c in tallies| + (if c0 in tallies then 1 else 0)
  {
    var c0 := concepts[0];
    var later := set c | c in concepts[1..] && c in tallies;
    assert c0 !in later;
    assert forall c :: c in concepts <==> c == c0 || c in concepts[1..];
    if c0 in tallies {
      assert (set c | c in concepts && c in tallies) == later + {c0};
    } else {
      assert (set c | c in concepts && c in tallies) == later;
    }
  }

  /** The linked concepts whose tally is `t`. */
  ghost function Carrying(tallies: map<ConceptId, Tally>, concepts: seq<ConceptId>, t: Tally): set<ConceptId>
  {
    set c | c in concepts && c in tallies && tallies[c] == t
  }

  /** Without repeated concepts, each tally value appears once per linked concept carrying it. */
  lemma {:induction false} LinkedTalliesMultiset(tallies: map<ConceptId, Tally>, concepts: seq<ConceptId>, t: Tally)
    requires NoDup(concepts)
    ensures multiset(LinkedTallies(tallies, concepts))[t] == |Carrying(tallies, concepts, t)|
  {
    if concepts != [] {
      var c0 := concepts[0];
      var head := if c0 in tallies then [tallies[c0]] else [];
      var one := if c0 in tallies && tallies[c0] == t then 1 else 0;
      calc {
        multiset(LinkedTallies(tallies, concepts))[t];
      == { assert LinkedTallies(tallies, concepts) == head + LinkedTallies(tallies, concepts[1..]); }
        multiset(head + LinkedTallies(tallies, concepts[1..]))[t];
      ==
        multiset(head)[t] + multiset(LinkedTallies(tallies, concepts[1..]))[t];
      == { LinkedTalliesMultiset(tallies, concepts[1..], t); }
        one + |Carrying(tallies, concepts[1..], t)|;
      == { CarryingSplit(tallies, concepts, t); }
        |Carrying(tallies, concepts, t)|;
      }
    }
  }

  lemma CarryingSplit(tallies: map<ConceptId, Tally>, concepts: seq<ConceptId>, t: Tally)
    requires NoDup(concepts) && concepts != []
    ensures var c0 := concepts[0];
      |Carrying(tallies, concepts, t)|
      == |Carrying(tallies, concepts[1..], t)| + (if c0 in tallies && tallies[c0] == t then 1 else 0)
  {
    var c0 := concepts[0];
    var later := Carrying(tallies, concepts[1..], t);
    assert c0 !in later;
    assert forall c :: c in concepts <==> c == c0 || c in concepts[1..];
    if c0 in tallies && tallies[c0] == t {
      assert Carrying(tallies, concepts, t) == later + {c0};
    } else {
      assert Carrying(tallies, concepts, t) == later;
    }
  }

  /** Only the tallies of linked concepts matter to `LinkedTallies`. */
  lemma {:induction false} LinkedTalliesOnlyLinked(t1: map<ConceptId, Tally>, t2: map<ConceptId, Tally>, concepts: seq<ConceptId>)
    requires forall c :: c in concepts ==> (c in t1 <==> c in t2)
    requires forall c :: c in concepts && c in t1 ==> t1[c] == t2[c]
    ensures LinkedTallies(t1, concepts) == LinkedTallies(t2, concepts)
  {
    if concepts != [] {
      LinkedTalliesOnlyLinked(t1, t2, concepts[1..]);
    }
  }

  /** The tallies with at least one attempt counted, each as often as in `ts`. */
  function NonZero(ts: seq<Tally>): (r: seq<Tally>)
    ensures forall t :: t in r <==> t in ts && (t.correct != 0 || t.wrong != 0)
    ensures forall t :: multiset(r)[t] == if t.correct != 0 || t.wrong != 0 then multiset(ts)[t] else 0
  {
    if ts == [] then []
    else
      var rest := NonZero(ts[1..]);
      assert ts == [ts[0]] + ts[1..];
      (if ts[0].correct != 0 || ts[0].wrong != 0 then [ts[0]] else []) + rest
  }

  /** Laplace-smoothed correctness `c / (c + w + 1)` of one concept. */
  function Correctness(t: Tally): (r: real)
    ensures 0.0 <= r < 1.0
  {
    t.correct as real / (t.correct + t.wrong + 1) as real
  }

  function CorrectnessSum(ts: seq<Tally>): (s: real)
    ensures 0.0 <= s
    ensures ts != [] ==> s < |ts| as real
  {
    if ts == [] then 0.0 else Correctness(ts[0]) + CorrectnessSum(ts[1..])
  }

  /**
   * The mean correctness over the linked concepts with a non-zero tally,
   * or 0.5 when there is none.
   */
  function ConceptCorrectnessAvg(tallies: map<ConceptId, Tally>, concepts: seq<ConceptId>): (avg: real)
    ensures 0.0 <= avg < 1.0
  {
    var records := NonZero(LinkedTallies(tallies, concepts));
    if |records| > 0 then
      MeanBelowOne(CorrectnessSum(records), |records| as real);
      CorrectnessSum(records) / |records| as real
    else 0.5
  }

  lemma MeanBelowOne(s: real, n: real)
    requires 0.0 <= s < n
    ensures 0.0 <= s / n < 1.0
  {
  }

  /** A concept-free fallback: with no linked concept counted yet the average is 0.5. */
  lemma {:induction false} ConceptCorrectnessAvgDefault(tallies: map<ConceptId, Tally>, concepts: seq<ConceptId>)
    requires forall c :: c in concepts && c in tallies ==> tallies[c] == Tally(0, 0)
    ensures ConceptCorrectnessAvg(tallies, concepts) == 0.5
  {
    var ts := LinkedTallies(tallies, concepts);
    forall t | t in ts
      ensures t == Tally(0, 0)
    {
    }
    NonZeroOfZeros(ts);
  }

  lemma {:induction false} NonZeroOfZeros(ts: seq<Tally>)
    requires forall t :: t in ts ==> t == Tally(0, 0)
    ensures NonZero(ts) == []
  {
    if ts != [] {
      assert forall t :: t in ts[1..] ==> t in ts;
      NonZeroOfZeros(ts[1..]);
    }
  }

  /** Repeated question answered long ago: 30% base, 10% luck, 30% ability, 30% concept record. */
  function CompositeProbability(luck: int, compoundIndex: real, avg: real): (r: real)
    ensures 0 <= luck <= 1 && 0.0 <= compoundIndex <= 1.0 && 0.0 <= avg <= 1.0 ==> 0.3 <= r <= 1.0
  {
    0.1 * luck as real + 0.3 * compoundIndex + 0.3 * avg + 0.3
  }

  /** First attempt on a question: 10% base, 40% luck, 50% ability. */
  function FirstAttemptProbability(luck: int, compoundIndex: real): (r: real)
    ensures 0 <= luck <= 1 && 0.0 <= compoundIndex <= 1.0 ==> 0.1 <= r <= 1.0
  {
    0.4 * luck as real + 0.5 * compoundIndex + 0.1
  }

  /** The policy for a question attempted before, by the hour gap the gate reads. */
  function RepeatProbability(hours: int, luck: int, compoundIndex: real, avg: real): (prob: real)
    ensures 0 <= luck <= 1 && 0.0 <= compoundIndex <= 1.0 && 0.0 <= avg <= 1.0 ==> 0.3 <= prob <= 1.0
  {
    match RecencyProbability(hours)
    case Some(fixed) => fixed
    case None => CompositeProbability(luck, compoundIndex, avg)
  }

  /**
   * The corrected correctness probability of one attempt submitted at
   * `submit`, from the user's records and concept tallies as they were
   * before the attempt: a repeated question uses the whole hours from its
   * latest prior attempt to the submission.  The store itself runs the gate
   * as written, `WallClockProbability` (see "Findings" in README.md).
   */
  function Probability(p: Profile, q: Question, recs: map<QuestionId, seq<Record>>,
                       tallies: map<ConceptId, Tally>, d: Draws, submit: int): (prob: real)
    requires q.id in recs ==> recs[q.id] != []
    requires 0 <= d.luck <= 1
    ensures 0.0 <= p.CompoundIndex() <= 1.0 ==> 0.1 <= prob <= 1.0
  {
    var ci := p.CompoundIndex();
    if q.id in recs then
      RepeatProbability(HourGap(submit, LatestTimestamp(recs[q.id])), d.luck, ci, ConceptCorrectnessAvg(tallies, q.concepts))
    else
      FirstAttemptProbability(d.luck, ci)
  }

  /**
   * The correctness probability the store uses, with the gate as written:
   * the hour gap is taken from the wall clock `d.now` to the latest prior
   * attempt.
   */
  function WallClockProbability(p: Profile, q: Question, recs: map<QuestionId, seq<Record>>,
                                tallies: map<ConceptId, Tally>, d: Draws): (prob: real)
    requires q.id in recs ==> recs[q.id] != []
    requires 0 <= d.luck <= 1
    ensures 0.0 <= p.CompoundIndex() <= 1.0 ==> 0.1 <= prob <= 1.0
    ensures q.id !in recs ==> prob == FirstAttemptProbability(d.luck, p.CompoundIndex())
  {
    var ci := p.CompoundIndex();
    if q.id in recs then
      RepeatProbability(HourGap(LatestTimestamp(recs[q.id]), d.now), d.luck, ci, ConceptCorrectnessAvg(tallies, q.concepts))
    else
      FirstAttemptProbability(d.luck, ci)
  }

  /**
   * Repeat-question policy as written: by the whole hours from the wall
   * clock to the latest prior attempt, 0.9 up to a day, 0.85 up to a week,
   * 0.8 up to 30 weeks, and beyond that the composite of luck, ability and
   * concept record.
   */
  lemma {:induction false} RepeatPolicy(p: Profile, q: Question, recs: map<QuestionId, seq<Record>>,
                                        tallies: map<ConceptId, Tally>, d: Draws)
    requires q.id in recs && recs[q.id] != []
    requires 0 <= d.luck <= 1
    ensures var gap := HourGap(LatestTimestamp(recs[q.id]), d.now);
      var prob := WallClockProbability(p, q, recs, tallies, d);
      && (gap <= 24 ==> prob == 0.9)
      && (24 < gap <= 168 ==> prob == 0.85)
      && (168 < gap <= 5040 ==> prob == 0.8)
      && (5040 < gap ==> prob == 0.3 + 0.1 * d.luck as real + 0.3 * p.CompoundIndex()
                               + 0.3 * ConceptCorrectnessAvg(tallies, q.concepts))
  {
  }

  /**
   * The same policy under the corrected gate: by the whole hours from the
   * latest prior attempt to the submission.
   */
  lemma {:induction false} CorrectedRepeatPolicy(p: Profile, q: Question, recs: map<QuestionId, seq<Record>>,
                                        tallies: map<ConceptId, Tally>, d: Draws, submit: int)
    requires q.id in recs && recs[q.id] != []
    requires 0 <= d.luck <= 1
    ensures var gap := HourGap(submit, LatestTimestamp(recs[q.id]));
      var prob := Probability(p, q, recs, tallies, d, submit);
      && (gap <= 24 ==> prob == 0.9)
      && (24 < gap <= 168 ==> prob == 0.85)
      && (168 < gap <= 5040 ==> prob == 0.8)
      && (5040 < gap ==> prob == 0.3 + 0.1 * d.luck as real + 0.3 * p.CompoundIndex()
                               + 0.3 * ConceptCorrectnessAvg(tallies, q.concepts))
  {
  }

  /**
   * In a consistent history the gap the corrected gate reads is elapsed
   * time: never negative, and a submission less than a day after the latest
   * attempt on the question gets 0.9.
   */
  lemma {:induction false} RepeatGapElapsed(p: Profile, q: Question, recs: map<QuestionId, seq<Record>>,
                                            tallies: map<ConceptId, Tally>, last: Option<int>, d: Draws)
    requires HistoryValid(recs, last) && q.id in recs
    requires d.InRange()
    ensures 0 <= HourGap(NextTimestamp(last, d), LatestTimestamp(recs[q.id]))
    ensures NextTimestamp(last, d) < LatestTimestamp(recs[q.id]) + Day ==>
      Probability(p, q, recs, tallies, d, NextTimestamp(last, d)) == 0.9
  {
    var latest := LatestTimestamp(recs[q.id]);
    var t := NextTimestamp(last, d);
    var gap := HourGap(t, latest);
    var i :| 0 <= i < |recs[q.id]| && recs[q.id][i].timestamp == latest;
    assert latest <= last.value < t;
    if gap < 0 {
      MulLe(gap + 1, 0, Hour);
    }
    if t < latest + Day && gap > 24 {
      MulLe(25, gap, Hour);
    }
  }

  /**
   * The repeat gate as written compares the latest prior attempt with the
   * wall clock, not with the new submission time: any prior attempt at most
   * a day ahead of the wall clock (in particular any attempt in the past)
   * gets 0.9, however long ago it was.
   */
  lemma {:induction false} RepeatGateReadsWallClock(p: Profile, q: Question, recs: map<QuestionId, seq<Record>>,
                                                    tallies: map<ConceptId, Tally>, d: Draws)
    requires q.id in recs && recs[q.id] != []
    requires 0 <= d.luck <= 1
    requires forall i :: 0 <= i < |recs[q.id]| ==> recs[q.id][i].timestamp <= d.now + 24 * Hour
    ensures WallClockProbability(p, q, recs, tallies, d) == 0.9
  {
    var gap := HourGap(LatestTimestamp(recs[q.id]), d.now);
    if gap > 24 {
      MulLe(25, gap, Hour);
    }
  }

  /**
   * The two gates disagree: a question answered once at the wall-clock
   * time, revisited in a new session (at least a day and an hour later),
   * gets 0.9 from the gate as written but 0.85 or 0.8 from the gap to the
   * submission.
   */
  lemma {:induction false} WallClockGateMisjudgesNewSession(p: Profile, q: Question, rec: Record,
                                                            tallies: map<ConceptId, Tally>, d: Draws)
    requires d.InRange() && d.sessionU >= 0.9
    requires rec.timestamp == d.now
    ensures var recs := map[q.id := [rec]];
      var submit := NextTimestamp(Some(d.now), d);
      && WallClockProbability(p, q, recs, tallies, d) == 0.9
      && Probability(p, q, recs, tallies, d, submit) in {0.85, 0.8}
  {
    var recs := map[q.id := [rec]];
    RepeatGateReadsWallClock(p, q, recs, tallies, d);
    var submit := NextTimestamp(Some(d.now), d);
    assert LatestTimestamp(recs[q.id]) == d.now;
    var gap := HourGap(submit, d.now);
    if gap <= 24 {
      MulLe(gap + 1, 25, Hour);
    }
    if gap > 30 * 7 * 24 {
      MulLe(30 * 7 * 24 + 1, gap, Hour);
    }
  }

  /** First-attempt policy: 0.1 + 0.4 luck + 0.5 compound index, whatever the tallies and the gate. */
  lemma {:induction false} FirstAttemptPolicy(p: Profile, q: Question, recs: map<QuestionId, seq<Record>>,
                                              tallies: map<ConceptId, Tally>, d: Draws, submit: int)
    requires q.id !in recs
    requires 0 <= d.luck <= 1
    ensures Probability(p, q, recs, tallies, d, submit) == 0.1 + 0.4 * d.luck as real + 0.5 * p.CompoundIndex()
    ensures WallClockProbability(p, q, recs, tallies, d) == Probability(p, q, recs, tallies, d, submit)
  {
  }

  // ---------------------------------------------------------------------
  // The new record

  /**
   * The record one attempt produces, or the error raised before any state
   * changes: the answer key has no entry for the drawn level, or the
   * attempt fails and the correct letter is not one of "ABCD".
   */
  function NewRecord(p: Profile, q: Question, recs: map<QuestionId, seq<Record>>,
                     tallies: map<ConceptId, Tally>, last: Option<int>, d: Draws): (r: Result<Record, Error>)
    requires d.InRange()
    requires q.id in recs ==> recs[q.id] != []
    ensures d.level !in q.answers ==> r == Failure(MissingAnswer)
    ensures d.level in q.answers ==>
      var correct := d.outcomeU < WallClockProbability(p, q, recs, tallies, d);
      && (r.Failure? <==> !correct && q.answers[d.level] !in Options)
      && (r.Failure? ==> r.error == AnswerNotAnOption)
    ensures r.Success? ==>
      && r.value.concepts == q.concepts
      && r.value.level == d.level
      && r.value.correctAnswer == q.answers[d.level]
      && (r.value.userAnswer == r.value.correctAnswer <==> d.outcomeU < WallClockProbability(p, q, recs, tallies, d))
      && (r.value.userAnswer != r.value.correctAnswer ==> r.value.userAnswer in Options)
      && 1 <= r.value.timeSpent <= 15 * 60 + 59
      && r.value.timestamp == NextTimestamp(last, d)
  {
    if d.level !in q.answers then Failure(MissingAnswer)
    else
      var correctAnswer := q.answers[d.level];
      var correct := d.outcomeU < WallClockProbability(p, q, recs, tallies, d);
      match Answering(correct, correctAnswer, d.wrongPick)
      case Failure(e) => Failure(e)
      case Success(userAnswer) =>
        Success(Record(q.concepts, d.level, correctAnswer, userAnswer, TimeSpent(d), NextTimestamp(last, d)))
  }

  // ---------------------------------------------------------------------
  // State updates

  /** The question's record list with one more record at its end, created if absent. */
  function AppendRecord(recs: map<QuestionId, seq<Record>>, qid: QuestionId, rec: Record): (r: map<QuestionId, seq<Record>>)
    ensures r.Keys == recs.Keys + {qid}
    ensures qid in recs ==> r[qid] == recs[qid] + [rec]
    ensures qid !in recs ==> r[qid] == [rec]
    ensures forall k :: k in recs && k != qid ==> r[k] == recs[k]
  {
    recs[qid := (if qid in recs then recs[qid] else []) + [rec]]
  }

  /** Counter 0 (correct) or counter 1 (wrong) raised by one. */
  function Bump(t: Tally, correct: bool): (r: Tally)
  {
    if correct then t.(correct := t.correct + 1) else t.(wrong := t.wrong + 1)
  }

  /** The tallies after the per-concept loop has handled `concepts`, in order. */
  function UpdateTallies(tallies: map<ConceptId, Tally>, concepts: seq<ConceptId>, correct: bool): (r: map<ConceptId, Tally>)
    ensures forall i :: 0 <= i < |concepts| ==> concepts[i] in r
    ensures tallies.Keys <= r.Keys
  {
    if concepts == [] then tallies
    else
      var m := UpdateTallies(tallies, concepts[..|concepts| - 1], correct);
      var c := concepts[|concepts| - 1];
      m[c := Bump(if c in m then m[c] else Tally(0, 0), correct)]
  }

  /**
   * Each linked concept gets a tally (from [0, 0] if absent) in which
   * exactly one counter rose by one, the correct counter iff `correct`;
   * tallies of unlinked concepts are untouched.
   */
  lemma {:induction false} UpdateTalliesEffect(tallies: map<ConceptId, Tally>, concepts: seq<ConceptId>, correct: bool)
    requires NoDup(concepts)
    ensures var m := UpdateTallies(tallies, concepts, correct);
      && m.Keys == tallies.Keys + (set c | c in concepts)
      && (forall c :: c in concepts ==>
            var before := if c in tallies then tallies[c] else Tally(0, 0);
            if correct then m[c] == Tally(before.correct + 1, before.wrong)
            else m[c] == Tally(before.correct, before.wrong + 1))
      && (forall c :: c in tallies && c !in concepts ==> m[c] == tallies[c])
  {
    if concepts != [] {
      var init := concepts[..|concepts| - 1];
      UpdateTalliesEffect(tallies, init, correct);
      var c := concepts[|concepts| - 1];
      assert c !in init;
      assert forall x :: x in concepts <==> x in init || x == c;
    }
  }

  /** `{p.id: p for p in profiles}`: the last profile with a given id wins. */
  function ProfileDict(ps: seq<Profile>): (m: map<UserId, Profile>)
    ensures m.Keys == set p | p in ps :: p.id
    ensures forall u :: u in m ==> m[u].id == u && m[u] in ps
  {
    if ps == [] then map[]
    else
      var last := ps[|ps| - 1];
      ProfileDict(ps[..|ps| - 1])[last.id := last]
  }

  /** The profile stored under an id is the last one in `ps` with that id. */
  lemma {:induction false} ProfileDictLastWins(ps: seq<Profile>, i: nat)
    requires i < |ps|
    requires forall j :: i < j < |ps| ==> ps[j].id != ps[i].id
    ensures ProfileDict(ps)[ps[i].id] == ps[i]
  {
    var n := |ps| - 1;
    if i < n {
      var init := ps[..n];
      assert forall j :: i < j < |init| ==> init[j] == ps[j];
      ProfileDictLastWins(init, i);
      assert ps[n].id != ps[i].id;
    }
  }

  /** Every question has a record list that is non-empty, and no record is later than the user's clock. */
  ghost predicate HistoryValid(recs: map<QuestionId, seq<Record>>, last: Option<int>)
  {
    && (forall q :: q in recs ==> recs[q] != [])
    && (forall q, i :: q in recs && 0 <= i < |recs[q]| ==> last.Some? && recs[q][i].timestamp <= last.value)
  }

  /** Every stored tally counts at least one answer. */
  ghost predicate TalliesValid(tallies: map<ConceptId, Tally>)
  {
    forall c :: c in tallies ==> tallies[c].correct + tallies[c].wrong > 0
  }

  /** The per-user tables have one entry per known user, and each user's entries are consistent. */
  ghost predicate TablesValid(users: set<UserId>, recordDb: map<UserId, map<QuestionId, seq<Record>>>,
                              conceptDb: map<UserId, map<ConceptId, Tally>>, timeDb: map<UserId, Option<int>>)
  {
    && recordDb.Keys == users
    && conceptDb.Keys == users
    && timeDb.Keys == users
    && (forall u :: u in recordDb ==> HistoryValid(recordDb[u], timeDb[u]))
    && (forall u :: u in conceptDb ==> TalliesValid(conceptDb[u]))
  }

  lemma {:induction false} TablesUpdate(users: set<UserId>, recordDb: map<UserId, map<QuestionId, seq<Record>>>,
                     conceptDb: map<UserId, map<ConceptId, Tally>>, timeDb: map<UserId, Option<int>>,
                     u: UserId, recs: map<QuestionId, seq<Record>>, tallies: map<ConceptId, Tally>, last: Option<int>)
    requires TablesValid(users, recordDb, conceptDb, timeDb) && u in users
    requires HistoryValid(recs, last) && TalliesValid(tallies)
    ensures TablesValid(users, recordDb[u := recs], conceptDb[u := tallies], timeDb[u := last])
  {
  }

  lemma {:induction false} HistoryAppend(recs: map<QuestionId, seq<Record>>, last: Option<int>, qid: QuestionId, rec: Record)
    requires HistoryValid(recs, last)
    requires last.Some? ==> last.value < rec.timestamp
    ensures HistoryValid(AppendRecord(recs, qid, rec), Some(rec.timestamp))
  {
    var r: map<QuestionId, seq<Record>> := AppendRecord(recs, qid, rec);
    forall q: QuestionId, i: int | q in r && 0 <= i < |r[q]|
      ensures r[q][i].timestamp <= rec.timestamp
    {
      if q == qid && i == |r[q]| - 1 {
      } else {
        assert q in recs && r[q][i] == recs[q][i];
      }
    }
  }

  lemma {:induction false} TalliesUpdate(tallies: map<ConceptId, Tally>, concepts: seq<ConceptId>, correct: bool)
    requires TalliesValid(tallies) && NoDup(concepts)
    ensures TalliesValid(UpdateTallies(tallies, concepts, correct))
  {
    UpdateTalliesEffect(tallies, concepts, correct);
  }

  class RecordDB {
    const profiles: seq<Profile>
    const concepts: seq<ConceptId>
    const questions: seq<Question>
    const profileDict: map<UserId, Profile>

    /** user -> question id -> the user's records on that question, oldest first. */
    var recordDatabase: map<UserId, map<QuestionId, seq<Record>>>
    /** user -> concept id -> tally. */
    var conceptDatabase: map<UserId, map<ConceptId, Tally>>
    /** user -> timestamp of the user's last attempt, if any. */
    var timeDatabase: map<UserId, Option<int>>

    ghost predicate Valid()
      reads this
    {
      && profileDict == ProfileDict(profiles)
      && (forall q :: q in questions ==> NoDup(q.concepts))
      && TablesValid(profileDict.Keys, recordDatabase, conceptDatabase, timeDatabase)
    }

    /** One empty record table, tally table and clock per profile id. */
    constructor (profiles: seq<Profile>, concepts: seq<ConceptId>, questions: seq<Question>)
      requires forall q :: q in questions ==> NoDup(q.concepts)
      ensures Valid()
      ensures this.profiles == profiles && this.concepts == concepts && this.questions == questions
      ensures profileDict.Keys == set p | p in profiles :: p.id
      ensures recordDatabase == map u | u in profileDict :: map[]
      ensures conceptDatabase == map u | u in profileDict :: map[]
      ensures timeDatabase == map u | u in profileDict :: None
    {
      this.profiles := profiles;
      this.concepts := concepts;
      this.questions := questions;
      var dict := ProfileDict(profiles);
      profileDict := dict;
      recordDatabase := map u | u in dict :: map[];
      conceptDatabase := map u | u in dict :: map[];
      timeDatabase := map u | u in dict :: None;
    }

    /**
     * `gen_record`: simulate one attempt of `userid`.  Fails, changing
     * nothing, for an unknown user, an empty question pool or an error of
     * `NewRecord`; otherwise appends the new record to the chosen question's
     * list, updates the linked concepts' tallies and moves the user's clock
     * to the new timestamp.  Other users' entries are unchanged.
     */
    method GenRecord(userid: UserId, d: Draws) returns (r: Result<Record, Error>)
      requires Valid()
      requires d.InRange()
      requires |questions| > 0 ==> d.question < |questions|
      modifies this
      ensures Valid()
      ensures r.Failure? ==>
        && recordDatabase == old(recordDatabase)
        && conceptDatabase == old(conceptDatabase)
        && timeDatabase == old(timeDatabase)
      ensures userid !in profileDict ==> r == Failure(UnknownUser)
      ensures userid in profileDict && |questions| == 0 ==> r == Failure(EmptyQuestionPool)
      ensures userid in profileDict && |questions| > 0 ==>
        var q := questions[d.question];
        && r == old(NewRecord(profileDict[userid], q, recordDatabase[userid],
                              conceptDatabase[userid], timeDatabase[userid], d))
        && (r.Success? ==>
             && recordDatabase == old(recordDatabase)[userid := AppendRecord(old(recordDatabase[userid]), q.id, r.value)]
             && conceptDatabase == old(conceptDatabase)[userid := UpdateTallies(old(conceptDatabase[userid]), q.concepts,
                                                                                r.value.correctAnswer == r.value.userAnswer)]
             && timeDatabase == old(timeDatabase)[userid := Some(r.value.timestamp)])
    {
      if userid !in profileDict {
        return Failure(UnknownUser);
      }
      if |questions| == 0 {
        return Failure(EmptyQuestionPool);
      }
      var question := questions[d.question];
      r := NewRecord(profileDict[userid], question, recordDatabase[userid],
                     conceptDatabase[userid], timeDatabase[userid], d);
      if r.Failure? {
        return;
      }
      var newRecord := r.value;
      ghost var oldRecordDb, oldConceptDb, oldTimeDb := recordDatabase, conceptDatabase, timeDatabase;
      AddRecord(userid, question.id, newRecord);
      CountAnswer(userid, question.concepts, newRecord);
      timeDatabase := timeDatabase[userid := Some(newRecord.timestamp)];

      HistoryAppend(oldRecordDb[userid], oldTimeDb[userid], question.id, newRecord);
      TalliesUpdate(oldConceptDb[userid], question.concepts, newRecord.correctAnswer == newRecord.userAnswer);
      TablesUpdate(profileDict.Keys, oldRecordDb, oldConceptDb, oldTimeDb, userid,
                   recordDatabase[userid], conceptDatabase[userid], timeDatabase[userid]);
    }

    /** Appends `rec` to the user's list for question `qid`, creating the list if absent. */
    method AddRecord(userid: UserId, qid: QuestionId, rec: Record)
      requires userid in recordDatabase
      modifies this`recordDatabase
      ensures recordDatabase == old(recordDatabase)[userid := AppendRecord(old(recordDatabase[userid]), qid, rec)]
    {
      ghost var before := recordDatabase[userid];
      if qid !in recordDatabase[userid] {
        recordDatabase := recordDatabase[userid := recordDatabase[userid][qid := []]];
      }
      recordDatabase := recordDatabase[userid := recordDatabase[userid][qid := recordDatabase[userid][qid] + [rec]]];
      assert recordDatabase[userid] == AppendRecord(before, qid, rec);
    }

    /**
     * For each linked concept: creates its tally as [0, 0] if absent, then
     * raises the correct counter if the record's answer is the correct one
     * and the wrong counter otherwise.
     */
    method CountAnswer(userid: UserId, linked: seq<ConceptId>, rec: Record)
      requires userid in conceptDatabase
      modifies this`conceptDatabase
      ensures conceptDatabase == old(conceptDatabase)[userid := UpdateTallies(old(conceptDatabase[userid]), linked,
                                                                              rec.correctAnswer == rec.userAnswer)]
    {
      for i := 0 to |linked|
        invariant conceptDatabase == old(conceptDatabase)[userid := UpdateTallies(old(conceptDatabase[userid]), linked[..i],
                                                                                  rec.correctAnswer == rec.userAnswer)]
      {
        ghost var done := conceptDatabase[userid];
        var lcpt := linked[i];
        if lcpt !in conceptDatabase[userid] {
          conceptDatabase := conceptDatabase[userid := conceptDatabase[userid][lcpt := Tally(0, 0)]];
        }
        var tally := conceptDatabase[userid][lcpt];
        var targetIndex := if rec.correctAnswer == rec.userAnswer then 0 else 1;
        if targetIndex == 0 {
          tally := tally.(correct := tally.correct + 1);
        } else {
          tally := tally.(wrong := tally.wrong + 1);
        }
        conceptDatabase := conceptDatabase[userid := conceptDatabase[userid][lcpt := tally]];
        assert linked[..i + 1][..i] == linked[..i];
        assert conceptDatabase[userid] == done[lcpt := Bump(if lcpt in done then done[lcpt] else Tally(0, 0),
                                                            rec.correctAnswer == rec.userAnswer)];
      }
      assert linked[..|linked|] == linked;
    }
  }
}
