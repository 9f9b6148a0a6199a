# Learner-record generator: a Dafny model of its core

The system generates fake answer histories for simulated learners who answer
multiple-choice questions linked to knowledge concepts. This project models
the deterministic logic at its core and proves properties of it. Randomness
and the wall clock are passed in as parameters.

- **Difficulty levels** (`common.dfy`, module `Common`): the three-member enum
  `OptionDiffLevel`. Its `>=` operator compares the member values with a strict
  `>`. `Ge` models it as written, and `AtLeast` is the conventional comparison
  (see Findings).
- **Profiles** (`profile.dfy`, module `Profiles`): an immutable `Profile` value.
  Its destructors `id`, `age` and `education` return exactly what it was built
  with, and nothing can change a field. `CurrentIq` and `CurrentMidx` decay the
  base scores by 0.997 and 0.995 per year away from age 20. `CompoundIndex`
  scales their sum by the education tier and divides by 900 (`cpd_max`).
- **Experience contribution** (`experience.dfy`, module `Experience`):
  - `LearningContr` fills an array attempt by attempt from a transition table,
    as the source's loop does. It is proved equal to the recursive
    specification `Contributions`.
  - `DescendingWeight` returns the linear recency weights `(i+1)/(n(n+1)/2)`,
    or an `InvalidArgument` error when `nfold <= 0`.
  - `ExprPcontr` blends the dot product of contributions and weights with a
    count prior. The prior is the Poisson CDF, taken as a function parameter
    `cdf`.
- **Record store** (`record_db.dfy`, module `RecordStore`): the class
  `RecordDB`, with one map field per per-user table (records by question,
  `[correct, wrong]` tallies by concept, last timestamp).
  - `GenRecord` takes every random draw and the wall clock in one `Draws`
    value. It fails with no state change for an unknown user. Otherwise it
    appends one record, updates the linked concepts' tallies in a loop, and
    moves the user's clock forward.
  - `NewRecord` computes the new record from the state before the update,
    using the helpers `NextTimestamp`, `WallClockProbability` and `Answering`.
    `WallClockProbability` is the repeat gate as the code computes it (see
    Findings).
  - Timestamps are integer microseconds.
  - `choices([True, False], weights=[p, 1 - p])` is modelled as a uniform draw
    `outcomeU` in [0, 1), with the outcome True exactly when `outcomeU < p`.
    `random() < 0.9` is modelled the same way, with `sessionU`.
  - The class invariant `Valid` holds the following:
    - the tables are keyed by exactly the profile ids;
    - every stored record list is non-empty;
    - no record is later than the user's clock;
    - every tally counts at least one answer.

The model follows the code where it departs from the documented design:

- a failure after a failure at index 1 contributes 0, not −0.25;
- the two-back test looks at the contribution two places back being non-zero;
- the probabilities are not clamped;
- the store keeps correct/wrong tallies, not full boolean histories;
- no concept-correlation graph exists in the code;
- the repeat gate measures the hours from the wall clock to the latest prior
  attempt (`latest − now`). It does not measure the time from that attempt to
  the new submission. The store uses `WallClockProbability`, the gate as
  written, and `RepeatGateReadsWallClock` states the consequence: any prior
  attempt in the past gets 0.9. `Probability` is the corrected gate, which
  measures the whole hours from the latest prior attempt to the submission;
  nothing in the store uses it (see Findings).

Both `datetime.now()` reads of `gen_record` are the single parameter
`Draws.now`. This is exact: the first read happens only when the user has no
clock yet, and the second only when the user already has a record on the
question. By the store invariant, these never happen together.

## Model

| member | source | states |
|---|---|---|
| Common.Value | common.py:3-6 | each member's value is its position in the member list `[EASY, MEDIUM, HARD]` |
| Common.MembersAreExactly | common.py:3-6 | exactly three members, with distinct values EASY = 0, MEDIUM = 1, HARD = 2 |
| Common.Ge | common.py:8-9 | `a >= b` holds exactly for (MEDIUM, EASY), (HARD, EASY) and (HARD, MEDIUM) |
| Common.GeIrreflexive | common.py:8-9 | `x >= x` is false for every member |
| Common.GeStrictOrder | common.py:8-9 | the relation is asymmetric, transitive and total on distinct members: a strict order |
| Common.AtLeast | common.py:8-9 | corrected comparison: `a` at least `b` iff equal or strictly greater |
| Common.AtLeastTotalOrder | common.py:8-9 | the corrected comparison is reflexive, antisymmetric, transitive and total |
| Profiles.Profile.AgeDiff | profile.py:27 | the distance from the peak age is zero exactly at age 20 |
| Profiles.Profile.CurrentIq | profile.py:24-29 | equals the base IQ at age 20; for a non-negative base it lies between 0 and the base |
| Profiles.Profile.CurrentMidx | profile.py:31-36 | equals the base memory index at age 20; for a non-negative base it lies between 0 and the base |
| Profiles.Pow | profile.py:28 | the zeroth power is 1; a power of a factor in [0, 1] stays in [0, 1] |
| Profiles.Decayed | profile.py:28-35 | zero years leave the base unchanged; a non-negative base decayed by a factor in [0, 1] lies between 0 and the base |
| Profiles.PowAntitone | profile.py:28 | a power of a factor in [0, 1] does not grow with the exponent |
| Profiles.DecayedAntitone | profile.py:28-35 | for a non-negative base and a factor in [0, 1], more years never give a larger decayed score |
| Profiles.DecaySymmetric | profile.py:24-42 | ages 20 + d and 20 − d give identical current IQ, memory index and compound index |
| Profiles.DecayMonotone | profile.py:24-36 | for non-negative base scores, a larger distance from age 20 never gives larger current scores |
| Profiles.Profile.CompoundIndex | profile.py:38-42 | education in 1..3 and base scores in [0, 150] put the compound index in [0, 1] |
| Experience.Score | exprcontr.py:21-41 | every table entry is one of −0.25, 0, 0.25, 0.5, 1 |
| Experience.Contributions | exprcontr.py:16-44 | one contribution per attempt, each one of −0.25, 0, 0.25, 0.5, 1, hence in [−0.25, 1]; empty history gives empty list |
| Experience.ContributionsPrefix | exprcontr.py:21-42 | the contributions of a prefix of the history are the prefix of the contributions |
| Experience.ContributionAt | exprcontr.py:21-42 | contribution i is the table entry for attempt i given the contributions before it |
| Experience.ContributionTable | exprcontr.py:21-41 | first attempt 0.5/0.25; after a success 1.0/0.25; after a failure a success 0.5, a failure at index 1 gives 0, at index i ≥ 2 gives 0 if contribution i−2 is non-zero else −0.25 |
| Experience.LearningContr | exprcontr.py:5-44 | the array filled by the loop holds exactly `Contributions` of the history |
| Experience.Weights | exprcontr.py:61-63 | n weights for n attempts |
| Experience.DescendingWeight | exprcontr.py:47-63 | InvalidArgument exactly when `nfold <= 0`; otherwise `nfold` weights |
| Experience.WeightsPrefixSum | exprcontr.py:61-63 | the first k weights sum to (k(k+1)/2) / (n(n+1)/2) |
| Experience.WeightsProperties | exprcontr.py:58-63 | for n ≥ 1: the weights are positive, strictly increasing and sum to exactly 1 |
| Experience.WeightsPositive | exprcontr.py:61-63 | every weight is positive |
| Experience.WeightsSumToOne | exprcontr.py:61-63 | for n ≥ 1 the weights sum to exactly 1 |
| Experience.DotBounds | exprcontr.py:85 | a dot product of values in [−0.25, 1] with non-negative weights lies between −0.25 and 1 times the weight total |
| Experience.DotLastTerm | exprcontr.py:85 | the last term of the dot product, a value in [−0.25, 1] times a non-negative weight, lies between −0.25 and 1 times that weight |
| Experience.ContributionsDotBounds | exprcontr.py:83-85 | for a non-empty history the weighted contribution sum `tot` lies in [−0.25, 1] |
| Experience.ExprPcontr | exprcontr.py:80-81 | the empty history scores 0 |
| Experience.ExprPcontrBounds | exprcontr.py:83-95 | non-empty history: the score is tot/3 + 2/3·cdf(len), tot in [−0.25, 1], score in [−1/12, 1] for a prior in [0, 1] |
| RecordStore.NextTimestamp | record_db.py:62-84 | first attempt: now; continuous session: 1 min 1 s 15 µs to 10 min 59 s 45 µs later; new session: 1 d 1 h 1 min 1 s 15 µs to 30 d 23 h 59 min 59 s 45 µs later |
| RecordStore.TimeSpent | record_db.py:85 | time spent lies in 1..959 seconds |
| RecordStore.HourGap | record_db.py:95 | the gap is `latest − now` floored to whole hours |
| RecordStore.LatestTimestamp | record_db.py:93-94 | the timestamp of the first record sorted by descending timestamp: a timestamp of the list no smaller than any other |
| RecordStore.RemoveFirst | record_db.py:28-29 | removing a present letter drops one element; with distinct letters the rest are exactly the others |
| RecordStore.Answering | record_db.py:23-30 | success returns the correct letter; failure returns a letter of "ABCD" other than it, or an error when the correct letter is not an option |
| RecordStore.AnsweringCoversOtherOptions | record_db.py:28-30 | every option other than the correct one is the wrong answer for some pick |
| RecordStore.LinkedTallies | record_db.py:59 | at most one tally per linked concept; the tally of every linked concept that has one occurs in the result, and every tally in it is that of some linked concept |
| RecordStore.LinkedTalliesCount | record_db.py:59 | with distinct linked concepts, the result has as many tallies as there are linked concepts with a tally |
| RecordStore.LinkedTalliesMultiset | record_db.py:59 | with distinct linked concepts, each tally value occurs in the result exactly as often as there are linked concepts carrying it |
| RecordStore.LinkedTalliesOnlyLinked | record_db.py:59 | tallies of unlinked concepts do not affect the selection |
| RecordStore.NonZero | record_db.py:110 | keeps exactly the tallies with a non-zero counter, each as many times as it occurs in the input, and drops the others |
| RecordStore.Correctness | record_db.py:111 | the smoothed correctness `c/(c+w+1)` lies in [0, 1) |
| RecordStore.CorrectnessSum | record_db.py:112 | a sum of n smoothed correctness values lies in [0, n) |
| RecordStore.ConceptCorrectnessAvg | record_db.py:110-112 | the concept average lies in [0, 1) |
| RecordStore.ConceptCorrectnessAvgDefault | record_db.py:112 | with no linked concept counted the average is 0.5 |
| RecordStore.RecencyProbability | record_db.py:97-107 | a fixed probability exists exactly for gaps up to 30 weeks (5040 hours), and lies in [0.8, 0.9] |
| RecordStore.RecencyAntitone | record_db.py:97-107 | within 30 weeks a longer gap never gives a higher fixed probability |
| RecordStore.CompositeProbability | record_db.py:117 | with a luck bit, a compound index and a concept average in [0, 1], the probability lies in [0.3, 1] |
| RecordStore.FirstAttemptProbability | record_db.py:124 | with a luck bit and a compound index in [0, 1], the probability lies in [0.1, 1] |
| RecordStore.RepeatProbability | record_db.py:97-119 | for a repeated question, with inputs in range, the probability lies in [0.3, 1] |
| RecordStore.Probability | record_db.py:92-126 | the corrected gate (hours from the latest attempt to the submission): with a compound index in [0, 1] and a luck bit, the probability lies in [0.1, 1] |
| RecordStore.WallClockProbability | record_db.py:92-126 | the gate as written, which the store uses: the probability lies in [0.1, 1], and a first attempt gets the first-attempt policy |
| RecordStore.RepeatPolicy | record_db.py:92-119 | repeated question, gate as written: 0.9 if the hours from the wall clock to the latest attempt are ≤ 24, 0.85 if ≤ 168, 0.8 if ≤ 5040, else 0.3 + 0.1·luck + 0.3·compound index + 0.3·concept average |
| RecordStore.CorrectedRepeatPolicy | record_db.py:96-119 | the corrected gate: the same thresholds and composite on the hours from the latest attempt to the submission |
| RecordStore.RepeatGapElapsed | record_db.py:95-98 | in a consistent history the corrected gap is never negative, and a submission less than a day after the latest attempt gets 0.9 |
| RecordStore.RepeatGateReadsWallClock | record_db.py:95-98 | the gate as written: every prior attempt at most a day ahead of the wall clock yields 0.9 |
| RecordStore.WallClockGateMisjudgesNewSession | record_db.py:95-105 | an attempt made at the wall-clock time and revisited in a new session gets 0.9 from the gate as written but 0.85 or 0.8 from the corrected gate |
| RecordStore.FirstAttemptPolicy | record_db.py:120-126 | first attempt: 0.1 + 0.4·luck + 0.5·compound index, the same under both gates |
| RecordStore.NewRecord | record_db.py:84-135 | MissingAnswer for a level without an answer; AnswerNotAnOption exactly when the attempt fails and the correct letter is not an option; otherwise a record with the question's concepts, the drawn level, the level's answer, a user answer equal to it iff the outcome draw is below the probability of the gate as written, a wrong answer from "ABCD", and the next timestamp |
| RecordStore.AppendRecord | record_db.py:137-139 | the question's list gains exactly one record at its end, created if absent; other questions unchanged |
| RecordStore.UpdateTallies | record_db.py:140-144 | every linked concept has a tally afterwards, and no existing tally is removed |
| RecordStore.UpdateTalliesEffect | record_db.py:140-144 | each linked concept's tally (from [0, 0] if absent) has exactly one counter raised by 1, the correct one iff the answer was right; unlinked tallies unchanged |
| RecordStore.ProfileDict | record_db.py:16 | the profile table is keyed by exactly the profile ids, each mapping to a profile with that id |
| RecordStore.ProfileDictLastWins | record_db.py:16 | the profile stored under an id is the last one in the list with that id |
| RecordStore.HistoryAppend | record_db.py:137-145 | appending a record later than the user's clock and moving the clock to it keeps every record no later than the clock |
| RecordStore.TalliesUpdate | record_db.py:140-144 | the tally update keeps every tally non-zero |
| RecordStore.TablesUpdate | record_db.py:19-21 | replacing one known user's entries with consistent ones keeps the per-user tables consistent |
| RecordStore.RecordDB.constructor | record_db.py:11-21 | one empty record table, empty tally table and empty clock per profile id |
| RecordStore.RecordDB.GenRecord | record_db.py:50-145 | unknown user or empty pool: error and no state change; otherwise the result is `NewRecord` (gate as written) on the pre-state, and on success the user's record list, tallies and clock become `AppendRecord`, `UpdateTallies` and the new timestamp, with other users unchanged; the invariant is kept |
| RecordStore.RecordDB.AddRecord | record_db.py:137-139 | the user's record table becomes `AppendRecord` of the old one |
| RecordStore.RecordDB.CountAnswer | record_db.py:140-144 | the loop leaves the user's tallies equal to `UpdateTallies` of the old ones |

## Left out

- `dump_records` (record_db.py:32-48) is not modelled. It is file output and JSON encoding.
- The `question_dict` and `concepts` attributes are built but never read by the
  modelled code. `concepts` is kept as a field; `question_dict` is not modelled.
- `poisson.cdf` (a library call) is the function parameter `cdf`.
- The `main` demo of exprcontr.py is not modelled. It is plotting and a random simulation.
- profile_generate.py, main.py and api.py are not part of this model. They
  sample from library distributions, drive the store, or print.
- The random draws are parameters. Their distributions are not modelled; only
  their ranges are (`Draws.InRange`).
- Floating-point rounding is not modelled; exact reals stand in for floats.
- Timestamps are exact integer microseconds, not float epoch seconds.
- The `isinstance(nfold, int)` check of `descending_weight` has no counterpart,
  because the parameter is typed `int`.
- A question's linked concepts are a Python set. The model uses a sequence
  without repeats, so iteration order is one fixed order.
- NextTimestamp: its `last < t` guarantee and its offset ranges hold only in a
  local time zone without daylight-saving changes. The source converts the
  last timestamp to naive local time (record_db.py:68), adds the offset
  (record_db.py:73, 79) and converts back (record_db.py:84). Across a DST
  change the real step differs from the nominal offset by an hour, and a step
  inside a repeated hour can land before the last timestamp. The model adds
  the offset to the epoch timestamp directly, so `HistoryValid` rests on the
  same assumption.
- Experience.Dot has no contract of its own. Its bounds are stated by
  `DotBounds` and `DotLastTerm`.
- ExprPcontrBounds: bounds the score by [−1/12, 1] rather than [0, 1]. A
  tighter bound needs properties of the Poisson CDF, which is only a parameter here.

## Findings

| source | as written | input that shows it | evidently intended | confidence | as-written member | corrected member |
|---|---|---|---|---|---|---|
| common.py:8-9 | `__ge__` returns `self.value > other.value` | `EASY >= EASY` is False | `>=` compares values with `>=`, so `x >= x` holds | not executed; high | Common.GeIrreflexive | Common.AtLeastTotalOrder |
| record_db.py:95 | the repeat gate's hour gap is `latest − now`, from the wall clock to the latest prior attempt | a question answered once at the wall-clock time and revisited in a new session (1 d 1 h or more later) gets 0.9 | the gap runs from the latest prior attempt to the new submission, as the comments "done the question within a day/week/month" say | not executed; medium | RecordStore.WallClockGateMisjudgesNewSession | RecordStore.RepeatGapElapsed |
