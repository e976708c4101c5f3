# gym-tracker session model

A Dafny model of the workout-logging core of gym-tracker, a React
application in which a user keeps *trackers* (one per exercise), each with
an ordered history of *sessions*. A session is a log of *activities*: sets
(reps at a weight), rests (a duration) and supersets.

The model covers:

- **the data** (`model.dfy`, module `TrainingModel`): the tracker, session,
  activity and active-session shapes, with timestamps and ISO dates as the
  epoch-millisecond integers they encode;
- **id allocation** (`utils.dfy`, `Utils`): `getNextIdForItems`, one more
  than the largest of 0 and every id;
- **id-keyed list updates** (`lists.dfy`, `Lists`): the `findIndex` +
  `splice` replace and remove performed on immer drafts;
- **activity logs** (`activities.dfy`, `Activities`): the first logged set,
  the set number shown beside each set, and the two shapes a log can take:
  strictly alternating (set, rest, set, ...) and "every rest follows a set";
- **the active-session screen** (`session.dfy`, `SessionFlow`): a phase
  machine (idle, lifting, resting) read off `activeActivity`. The handlers
  are methods of a class holding the immer draft's fields. `Click` runs a
  handler only when its control is rendered and is proved against the value
  function `Step`. Any sequence of actions from a new session keeps the log
  alternating (`RunPreservesReachable`, `EveryRunAlternates`);
- **the application store** (`app.dfy`, `App`): adding, replacing and
  deleting trackers, seeding a new session, committing the active session
  into its tracker, and discard/cancel;
- **the older per-tracker flow** (`legacy.dfy`, `LegacySession`, and
  `tracker_view.dfy`, `TrackerView`): the mode machine with its own reps,
  weight and resting start time; the tracker screen's default derivation,
  commit and confirm-gated deletions; and the per-session weight summary.

The clock (`currentTime`, `new Date()`) is the `now` argument of each
transition. The answer to `window.confirm` is the `confirmed` argument.

Where the code differs from what one might expect of the application, the
model follows the code:

- the weight input is rendered only while idle or resting and the reps
  input only while lifting, so an edit in another phase is not possible;
- the application seeds a new session with 0 reps at 0 kg when there is no
  earlier set, and the older screen uses 8 reps at 10 kg;
- the older screen renders Commit Session and Discard whether or not
  anything was logged;
- the tracker screen passes `onClickCancel` to the older session screen,
  whose Cancel and Discard buttons call `onClickDiscard`. That handler is
  never supplied, so both buttons do nothing;
- `App` passes `onClickNewSession` to `Tracker`, which does not declare it,
  so the application's `handleNewSession` has no caller in this code. It is
  still modelled (`App.Store.NewSession`).

## Model

| member | source | states |
|---|---|---|
| Utils.MaxIdFrom | src/utils.ts:3 | the fold yields a value at least the seed and every id, and equal to the seed or to some id: the maximum |
| Utils.NextIdForItems | src/utils.ts:1-5 | the allocated id is at least 1, exceeds every id in the list, and is 1 or one more than some id: 1 for an empty list, else max(0, ids) + 1 |
| Utils.NextIdDependsOnlyOnIdSet | src/utils.ts:3 | two lists carrying the same set of ids get the same next id, whatever their order or repetition |
| Utils.AppendWithNextIdKeepsDistinct | src/utils.ts:1-5 | appending an item under the allocated id keeps ids pairwise distinct |
| Lists.FindIndex | src/App.tsx:58 | the index is -1 exactly when no item has the id, and otherwise the first item with it |
| Lists.ReplaceFirst | src/App.tsx:57-62 | same length; the first item with the new item's id is replaced and every other position is unchanged; no match changes nothing |
| Lists.RemoveFirst | src/App.tsx:68-73 | no match changes nothing; otherwise the first item with the id is dropped and the others keep their order |
| Lists.ReplaceFirstKeepsDistinct | src/App.tsx:55-64 | replacing a tracker keeps tracker ids pairwise distinct |
| Lists.RemoveFirstDropsId | src/App.tsx:66-76 | with distinct ids, after removal no item has the id and ids stay distinct |
| Activities.FirstSetIndex | src/App.tsx:221-223 | `find` of the first set: none exactly when the log holds no set, otherwise a set with no set before it |
| Activities.CountSets | src/components/TrainingSessionInterface/index.tsx:167-169 | the `filter(type === "set").length` count is at most the log's length, and 0 exactly when the log holds no set |
| Activities.SetNumber | src/components/TrainingSessionInterface/index.tsx:167-169 | the number shown at position i is at most i + 1, and at least 1 beside a set |
| Activities.AlternatingRestsFollowSets | src/components/TrainingSessionInterface/index.tsx:114-158 | an alternating log never holds two consecutive rests and begins with a set |
| Activities.AlternatingAppend | src/components/TrainingSessionInterface/index.tsx:53-66 | appending a set at an even position or a rest at an odd one keeps the log alternating |
| Activities.RestsFollowSetsAppend | src/components/Tracker/TrainingSessionInterface/index.tsx:57-91 | appending a set, or a rest right after a set, keeps every rest following a set |
| Activities.CountSetsOfAlternatingPrefix | src/components/TrainingSessionInterface/index.tsx:167-169 | an alternating prefix of length n holds (n + 1) / 2 sets |
| Activities.SetNumberOfAlternating | src/components/TrainingSessionInterface/index.tsx:167-169 | in an alternating log the set at position i is shown as set number i / 2 + 1 |
| Activities.SetNumberCountsEarlierSets | src/components/TrainingSessionInterface/index.tsx:167-169 | a set's shown number is one more than the count of sets before it |
| Activities.CountSetsMonotone | src/components/TrainingSessionInterface/index.tsx:167-169 | a longer prefix never holds fewer sets |
| Activities.SetNumbersStrictlyIncrease | src/components/Tracker/TrainingSessionInterface/index.tsx:158-160 | two different sets never carry the same number; later sets carry larger ones |
| SessionFlow.StartSetAndEndRest | src/components/TrainingSessionInterface/index.tsx:82-98 | a set starts now; exactly one rest of now minus its start is appended when resting, otherwise the log is unchanged; date, current values and tracker are kept |
| SessionFlow.Step | src/components/TrainingSessionInterface/index.tsx:114-158 | a control that is not rendered changes nothing; no action changes the tracker; the log only grows, by at most one entry per action |
| SessionFlow.InitialIsReachable | src/components/TrainingSessionInterface/index.tsx:114-130 | a new session is idle with nothing logged and no date |
| SessionFlow.StepPreservesReachable | src/components/TrainingSessionInterface/index.tsx:114-158 | with Start only when idle, Log set only when lifting and Start next set only when resting, every action keeps the log alternating with the phase's parity |
| SessionFlow.RunPreservesReachable | src/components/TrainingSessionInterface/index.tsx:114-158 | any sequence of actions keeps the session reachable |
| SessionFlow.EveryRunAlternates | src/components/TrainingSessionInterface/index.tsx:114-158 | from a new session, any sequence of actions leaves the log reading set, rest, set, ... with no two consecutive rests |
| SessionFlow.StepKeepsTimely | src/components/TrainingSessionInterface/index.tsx:53-110 | an action sampled no earlier than every timestamp of the session logs no negative rest, and leaves the date and the running activity's start no later than now, with the start not before the date |
| SessionFlow.RunKeepsTimely | src/components/TrainingSessionInterface/index.tsx:82-98 | while the clock samples never run back, any sequence of actions keeps the session timely |
| SessionFlow.EveryMonotoneRunHasNonNegativeRests | src/components/TrainingSessionInterface/index.tsx:87-91 | from a new session, actions whose clock samples never run back log only rests of non-negative duration |
| SessionFlow.StepKeepsStartDate | src/components/TrainingSessionInterface/index.tsx:104-110 | once a reachable session has a start date, no action changes it, since Start is rendered only while idle |
| SessionFlow.LogSetRecordsCurrentValues | src/components/TrainingSessionInterface/index.tsx:53-66 | Log set appends exactly one set holding the current reps and weight, starts a rest now, and keeps date and current values |
| SessionFlow.StartBeginsLifting | src/components/TrainingSessionInterface/index.tsx:104-110 | Start from idle stamps the date now, logs nothing and begins a set now |
| SessionFlow.EditsChangeOnlyCurrentValues | src/components/TrainingSessionInterface/index.tsx:68-80 | a weight or reps edit changes only that current value; log, date, running activity and tracker are untouched |
| SessionFlow.CancelOnlyBeforeLogging | src/components/TrainingSessionInterface/index.tsx:114-130 | Cancel is rendered only while nothing is logged and the session has no date, so it is never rendered beside Commit Session and cancelling never drops a logged activity |
| SessionFlow.FinishOfferedImpliesStarted | src/components/TrainingSessionInterface/index.tsx:194-199 | when Commit Session and Discard are rendered the session has a date, a running activity and a log beginning with a set |
| SessionFlow.ActiveSession.constructor | src/App.tsx:87-95 | empty log, no date, no running activity, the given defaults and tracker |
| SessionFlow.ActiveSession.LogSet | src/components/TrainingSessionInterface/index.tsx:53-66 | exactly one set appended at the end, a rest starting now; date, current values and tracker unchanged |
| SessionFlow.ActiveSession.ChangeWeight | src/components/TrainingSessionInterface/index.tsx:68-73 | only the current weight changes |
| SessionFlow.ActiveSession.ChangeReps | src/components/TrainingSessionInterface/index.tsx:75-80 | only the current reps change |
| SessionFlow.ActiveSession.StartNextSet | src/components/TrainingSessionInterface/index.tsx:100-102 | the new state is `StartSetAndEndRest` of the old one |
| SessionFlow.ActiveSession.Start | src/components/TrainingSessionInterface/index.tsx:104-110 | the date becomes now, then a set starts as in `StartSetAndEndRest` |
| SessionFlow.ActiveSession.Click | src/components/TrainingSessionInterface/index.tsx:114-158 | the new state is `Step` of the old one, so unrendered controls change nothing, and the session stays reachable |
| App.FindTracker | src/App.tsx:36-38 | none exactly when no tracker has the id, otherwise the first tracker with it |
| App.SessionDefaults | src/App.tsx:214-233 | reps and weight of the first set of the last session; 0 and 0 when the tracker is missing, has no session, or its last session holds no set |
| App.CommitInto | src/App.tsx:102-127 | the tracker list keeps its length and ids; nothing changes when the tracker is missing or the session has no date |
| App.CommitAppendsOneSession | src/App.tsx:102-126 | a commit appends exactly one session to the owning tracker only: the prototype's log and date, the id `getNextIdForItems` allocates for that tracker's sessions (so above every existing one), and an end at the running activity's truthy start or else now |
| App.EndDate | src/App.tsx:111-118 | the committed end is the running activity's start time when there is one and it is not 0, and the current time when there is none or it is 0 |
| App.CommitEndNotBeforeStart | src/App.tsx:106-125 | committing a timely session gives a `dateEnd` no earlier than its `date` |
| App.CommitKeepsSessionIdsDistinct | src/App.tsx:120-125 | committing keeps every tracker's session ids pairwise distinct |
| App.CommitOfferedAppends | src/App.tsx:98-132 | committing a session whose commit button is rendered always appends a session whose log alternates |
| App.CommitScenario | src/App.tsx:111-125 | weight 20, start, 5 reps, log, next set, commit: the tracker gains [5 reps at 20, rest] dated at the start and ending when the running set began |
| App.Store.constructor | src/App.tsx:25-34 | no trackers, no active session, the trackers screen |
| App.Store.SaveNewTracker | src/App.tsx:40-53 | the tracker is appended under the next free id, the trackers screen is shown, and tracker ids stay distinct |
| App.Store.ChangeTracker | src/App.tsx:55-64 | the list becomes `ReplaceFirst` of the old one and ids stay distinct |
| App.Store.DeleteTracker | src/App.tsx:66-76 | the list becomes `RemoveFirst` of the old one, no tracker with that id remains, and the trackers screen is shown |
| App.Store.NewSession | src/App.tsx:82-96 | a fresh active session seeded with `SessionDefaults` of the found tracker |
| App.Store.CommitActiveTrainingSession | src/App.tsx:98-132 | without an active session nothing changes; otherwise the trackers become `CommitInto` of the old ones, the tracker screen of that tracker is shown and the active session is cleared |
| App.Store.Discard | src/App.tsx:244-248 | the active session is cleared only when the confirmation is accepted |
| App.Store.Cancel | src/App.tsx:253 | the active session is cleared unconditionally |
| LegacySession.LegacySessionInterface.constructor | src/components/Tracker/TrainingSessionInterface/index.tsx:34-42 | idle, no start times, the caller's reps and weight or else 8 and 10 |
| LegacySession.LegacySessionInterface.SessionDuration | src/components/Tracker/TrainingSessionInterface/index.tsx:53-55 | none exactly when the start time is unset or 0, otherwise now minus the start time |
| LegacySession.LegacySessionInterface.AddActivity | src/components/Tracker/TrainingSessionInterface/index.tsx:57-67 | exactly one set with the given reps and weight appended, resting from now |
| LegacySession.LegacySessionInterface.ChangeWeight | src/components/Tracker/TrainingSessionInterface/index.tsx:70-72 | only the local weight changes |
| LegacySession.LegacySessionInterface.ChangeReps | src/components/Tracker/TrainingSessionInterface/index.tsx:74-76 | only the local reps change |
| LegacySession.LegacySessionInterface.StartNextSet | src/components/Tracker/TrainingSessionInterface/index.tsx:78-91 | always working; a truthy rest start is logged as one rest of now minus it and cleared, otherwise the log is unchanged |
| LegacySession.LegacySessionInterface.Start | src/components/Tracker/TrainingSessionInterface/index.tsx:93-96 | the session start becomes now and the mode working; the log is untouched |
| LegacySession.LegacySessionInterface.Click | src/components/Tracker/TrainingSessionInterface/index.tsx:100-187 | unrendered controls, Cancel and Discard change nothing; a rendered Start, Log set, Start next set, weight or reps input leaves exactly the state its handler produces; the log only grows and keeps its date; rests always follow sets, and the log alternates while the clock is non-zero |
| TrackerView.LegacyDefaults | src/components/Tracker/index.tsx:26-37 | the first set of the last session gives the defaults; none when there is no session or no set |
| TrackerView.LegacyDefaultsAgreeWithSessionDefaults | src/components/Tracker/index.tsx:26-37 | the same reps and weight as the application's defaults when a set exists; otherwise the application falls back to 0 and 0 |
| TrackerView.AppendSession | src/components/Tracker/index.tsx:47-57 | committing appends one session at the end with the draft's log and date, ending now, under the id `getNextIdForItems` allocates for the sessions (so above every existing one); earlier sessions, in order, and the tracker's fields are kept |
| TrackerView.AppendSessionKeepsIdsDistinct | src/components/Tracker/index.tsx:49-53 | committing keeps the tracker's session ids pairwise distinct |
| TrackerView.RemoveSession | src/components/Tracker/index.tsx:65-72 | removing a session keeps the tracker's fields, changes nothing when no session has the id, and otherwise drops the first session with it, keeping the others in order |
| TrackerView.RemoveSessionDropsIt | src/components/Tracker/index.tsx:63-75 | with distinct session ids, no session with the removed id remains and the rest stay distinct |
| TrackerView.SetWeights | src/components/Tracker/index.tsx:170-174 | the collected weights number exactly the sets of the session |
| TrackerView.SetWeightsInOrder | src/components/Tracker/index.tsx:170-174 | the weights are collected in order: the set at position i gives the entry whose index is the number of sets before it |
| TrackerView.SetWeightsMembers | src/components/Tracker/index.tsx:170-174 | a weight is collected exactly when some set of the session carries it |
| TrackerView.SessionWeight | src/components/Tracker/index.tsx:169-180 | Mixed exactly when two sets differ in weight; no weight exactly when there is no set; otherwise the weight every set carries |
| TrackerView.TrackerScreen.constructor | src/components/Tracker/index.tsx:23-24 | the screen opens with the tracker prop and no draft |
| TrackerView.TrackerScreen.OpenSessionScreen | src/components/Tracker/index.tsx:82-92 | with a draft open, the older session screen is first rendered idle on that draft with the reps and weight of `LegacyDefaults`, or 8 and 10 when there are none; without a draft there is no session screen |
| TrackerView.TrackerScreen.StartSession | src/components/Tracker/index.tsx:39-45 | a draft dated now with an empty log; the tracker is unchanged |
| TrackerView.TrackerScreen.CommitSession | src/components/Tracker/index.tsx:47-57 | the tracker handed on is `AppendSession` of the current one, and the draft is closed |
| TrackerView.TrackerScreen.Cancel | src/components/Tracker/index.tsx:59-61 | the draft is closed |
| TrackerView.TrackerScreen.DeleteSession | src/components/Tracker/index.tsx:63-75 | when confirmed the tracker handed on is `RemoveSession` of the current one; otherwise nothing is handed on |
| TrackerView.TrackerScreen.ClickDelete | src/components/Tracker/index.tsx:77-80 | the tracker's id is handed to `onDelete` only when confirmed |

## Left out

- Persistence through `usePersistentState` (local storage I/O): the store is a plain object.
- The 500 ms refresh of `currentTime` and all rendering, layout and styling: the clock is the `now` argument of each action.
- `formatTime` and `isDebugEnabled`: their bodies are not part of this model, so durations are not formatted and the debug panel (with the active screen's session time) is not modelled.
- `InputQuantity` (src/components/InputQuantity/index.tsx): its text parsing relies on floating-point number formatting; an input event is modelled as the integer it yields.
- Floating-point weights and reps: weights are only stored and compared, so they are integers; NaN is not modelled.
- ISO-8601 conversion (`toISOString`, `new Date(...).getTime()`): dates are the integer they encode, so the round trip through a string is taken to be exact.
- Clock monotonicity: the model does not assume the clock moves forward. When the system clock moves back, a rest duration can be negative and a committed end can precede its start, in the model as in the code. The non-negative rests and the end-after-start order are proved only for clock samples that never run back (`SessionFlow.RunKeepsTimely`, `App.CommitEndNotBeforeStart`).
- The tracker list and new-tracker form screens, and `handleBackButtonClick`: they only change which screen is shown.
- LegacySession.LegacySessionInterface.Click: strict alternation is promised only for actions at a non-zero clock value, because a rest begun at time 0 is falsy and is never logged; the weaker "every rest follows a set" holds for every clock.
- The legacy screen's commit button hands the draft to the tracker screen; that hand-off is modelled as `TrackerView.TrackerScreen.CommitSession` rather than as a control of `Click`.
