/**
 * The active training session screen (src/components/TrainingSessionInterface/index.tsx).
 *
 * The session moves through three phases, read off `activeActivity`: idle
 * (null), lifting (a "set" activity) and resting (a "rest" activity). Every
 * handler rewrites the session as an immer draft; `currentTime`, which the
 * screen resamples every 500 ms, is the `now` argument of each transition.
 */
module SessionFlow {
  import opened TrainingModel
  import opened Activities

  datatype Phase = Idle | Lifting | Resting | Unrecognised

  /** The phase the screen renders for a session. */
  function PhaseOf(v: ActiveTrainingSession): Phase {
    match v.activeActivity
    case None => Idle
    case Some(a) =>
      match a.kind
      case SetType => Lifting
      case RestType => Resting
      case SuperSetType => Unrecognised
  }

  /** The controls of the screen that change the session itself. */
  datatype Control =
    | StartButton
    | LogSetButton
    | StartNextSetButton
    | WeightInput(weight: int)
    | RepsInput(reps: int)

  /**
   * Whether a control is rendered: Start and a weight input while idle, the
   * reps input and Log set while lifting, a weight input and Start next set
   * while resting.
   */
  predicate Offered(v: ActiveTrainingSession, c: Control) {
    match c
    case StartButton => PhaseOf(v) == Idle
    case LogSetButton => PhaseOf(v) == Lifting
    case StartNextSetButton => PhaseOf(v) == Resting
    case WeightInput(_) => PhaseOf(v) == Idle || PhaseOf(v) == Resting
    case RepsInput(_) => PhaseOf(v) == Lifting
  }

  /** Commit Session and Discard are rendered once an activity has been logged. */
  predicate FinishOffered(v: ActiveTrainingSession) {
    |v.sessionPrototype.activities| > 0
  }

  /** Cancel is rendered while idle. */
  predicate CancelOffered(v: ActiveTrainingSession) {
    PhaseOf(v) == Idle
  }

  /** The session `handleNewSession` creates: nothing logged, not started. */
  function Initial(trackerId: int, defaults: CurrentValues): ActiveTrainingSession {
    ActiveTrainingSession(SessionPrototype([], None), None, defaults, trackerId)
  }

  /**
   * `startSetAndEndRest`: a running rest is logged with its duration, and a
   * set starts now.
   */
  function StartSetAndEndRest(v: ActiveTrainingSession, now: int): (r: ActiveTrainingSession)
    ensures r.activeActivity == Some(ActiveActivity(SetType, now))
    ensures PhaseOf(v) == Resting ==>
      r.sessionPrototype.activities
        == v.sessionPrototype.activities + [Rest(now - v.activeActivity.value.startTime)]
    ensures PhaseOf(v) != Resting ==> r.sessionPrototype.activities == v.sessionPrototype.activities
    ensures r.sessionPrototype.date == v.sessionPrototype.date
    ensures r.currentValues == v.currentValues && r.trackerId == v.trackerId
  {
    var acts := v.sessionPrototype.activities;
    var logged := match v.activeActivity
      case Some(a) => if a.kind == RestType then acts + [Rest(now - a.startTime)] else acts
      case None => acts;
    v.(sessionPrototype := v.sessionPrototype.(activities := logged),
       activeActivity := Some(ActiveActivity(SetType, now)))
  }

  /**
   * One user action on the screen at time `now`: the handler of the control
   * when the control is rendered, no change otherwise.
   */
  function Step(v: ActiveTrainingSession, c: Control, now: int): (r: ActiveTrainingSession)
    ensures !Offered(v, c) ==> r == v
    ensures r.trackerId == v.trackerId
    ensures v.sessionPrototype.activities <= r.sessionPrototype.activities
    ensures |r.sessionPrototype.activities| <= |v.sessionPrototype.activities| + 1
  {
    if !Offered(v, c) then v
    else match c
      case StartButton =>
        StartSetAndEndRest(v.(sessionPrototype := v.sessionPrototype.(date := Some(now))), now)
      case LogSetButton =>
        var logged := Set(v.currentValues.reps, v.currentValues.weight);
        v.(sessionPrototype := v.sessionPrototype.(activities := v.sessionPrototype.activities + [logged]),
           activeActivity := Some(ActiveActivity(RestType, now)))
      case StartNextSetButton => StartSetAndEndRest(v, now)
      case WeightInput(w) => v.(currentValues := v.currentValues.(weight := w))
      case RepsInput(n) => v.(currentValues := v.currentValues.(reps := n))
  }

  /** A timestamped user action. */
  datatype Event = Event(control: Control, now: int)

  /** The session after a sequence of user actions. */
  function Run(v: ActiveTrainingSession, events: seq<Event>): ActiveTrainingSession
    decreases |events|
  {
    if |events| == 0 then v else Run(Step(v, events[0].control, events[0].now), events[1..])
  }

  /**
   * The states the screen can reach: idle with nothing logged and no date;
   * otherwise started, with an alternating log of even length while lifting
   * and odd length while resting.
   */
  predicate Reachable(v: ActiveTrainingSession) {
    var acts := v.sessionPrototype.activities;
    && Alternating(acts)
    && match v.activeActivity
       case None => acts == [] && v.sessionPrototype.date.None?
       case Some(a) =>
         && v.sessionPrototype.date.Some?
         && a.kind != SuperSetType
         && (a.kind == SetType ==> |acts| % 2 == 0)
         && (a.kind == RestType ==> |acts| % 2 == 1)
  }

  lemma InitialIsReachable(trackerId: int, defaults: CurrentValues)
    ensures Reachable(Initial(trackerId, defaults))
  {
  }

  /** Every user action keeps the session in a reachable state. */
  lemma StepPreservesReachable(v: ActiveTrainingSession, c: Control, now: int)
    requires Reachable(v)
    ensures Reachable(Step(v, c, now))
  {
    var acts := v.sessionPrototype.activities;
    if Offered(v, c) {
      match c
      case LogSetButton =>
        AlternatingAppend(acts, Set(v.currentValues.reps, v.currentValues.weight));
      case StartNextSetButton =>
        AlternatingAppend(acts, Rest(now - v.activeActivity.value.startTime));
      case _ =>
    }
  }

  /** Any sequence of user actions keeps the session reachable. */
  lemma {:induction false} RunPreservesReachable(v: ActiveTrainingSession, events: seq<Event>)
    requires Reachable(v)
    ensures Reachable(Run(v, events))
    decreases |events|
  {
    if |events| > 0 {
      StepPreservesReachable(v, events[0].control, events[0].now);
      RunPreservesReachable(Step(v, events[0].control, events[0].now), events[1..]);
    }
  }

  /**
   * Whatever the user does, the log of a new session reads set, rest, set,
   * rest, ... and never holds two consecutive rests.
   */
  lemma EveryRunAlternates(trackerId: int, defaults: CurrentValues, events: seq<Event>)
    ensures Alternating(Run(Initial(trackerId, defaults), events).sessionPrototype.activities)
    ensures RestsFollowSets(Run(Initial(trackerId, defaults), events).sessionPrototype.activities)
  {
    InitialIsReachable(trackerId, defaults);
    RunPreservesReachable(Initial(trackerId, defaults), events);
    AlternatingRestsFollowSets(Run(Initial(trackerId, defaults), events).sessionPrototype.activities);
  }

  /** Every logged rest has a non-negative duration. */
  predicate NonNegativeRests(acts: seq<Activity>) {
    forall i :: 0 <= i < |acts| && acts[i].Rest? ==> acts[i].duration >= 0
  }

  /**
   * The session's timestamps as seen at time `now`: its rests are not
   * negative, its date and the start of its running activity are not later
   * than `now`, and the running activity did not start before the date.
   */
  predicate TimelyAt(v: ActiveTrainingSession, now: int) {
    && NonNegativeRests(v.sessionPrototype.activities)
    && (v.sessionPrototype.date.Some? ==> v.sessionPrototype.date.value <= now)
    && (v.activeActivity.Some? ==> v.activeActivity.value.startTime <= now)
    && (v.activeActivity.Some? && v.sessionPrototype.date.Some? ==>
          v.sessionPrototype.date.value <= v.activeActivity.value.startTime)
  }

  /** An action at a time no earlier than every timestamp of the session keeps it timely. */
  lemma StepKeepsTimely(v: ActiveTrainingSession, c: Control, t: int, now: int)
    requires TimelyAt(v, t) && t <= now
    ensures TimelyAt(Step(v, c, now), now)
  {
    var acts := v.sessionPrototype.activities;
    var r := Step(v, c, now);
    if Offered(v, c) && (c.LogSetButton? || c.StartNextSetButton?) {
      var added := r.sessionPrototype.activities;
      forall i | 0 <= i < |added| && added[i].Rest? ensures added[i].duration >= 0 {
        if i < |acts| {
          assert added[i] == acts[i];
        }
      }
    }
  }

  /** The clock samples of a sequence of actions never run back, starting from `t`. */
  predicate ClockNeverRunsBack(t: int, events: seq<Event>) {
    && (|events| > 0 ==> t <= events[0].now)
    && forall i :: 0 < i < |events| ==> events[i - 1].now <= events[i].now
  }

  /** The clock sample of the last action, or `t` when there is none. */
  function LastTime(t: int, events: seq<Event>): int {
    if |events| == 0 then t else events[|events| - 1].now
  }

  /**
   * While the clock never runs back, any sequence of actions keeps the
   * session timely: every logged rest has a non-negative duration and the
   * running activity starts no earlier than the session.
   */
  lemma {:induction false} RunKeepsTimely(v: ActiveTrainingSession, t: int, events: seq<Event>)
    requires TimelyAt(v, t)
    requires ClockNeverRunsBack(t, events)
    ensures TimelyAt(Run(v, events), LastTime(t, events))
    decreases |events|
  {
    if |events| > 0 {
      var e := events[0];
      StepKeepsTimely(v, e.control, t, e.now);
      var rest := events[1..];
      assert ClockNeverRunsBack(e.now, rest) by {
        if |rest| > 0 {
          assert rest[0] == events[1];
        }
        forall i | 0 < i < |rest| ensures rest[i - 1].now <= rest[i].now {
          assert rest[i] == events[i + 1] && rest[i - 1] == events[i];
        }
      }
      RunKeepsTimely(Step(v, e.control, e.now), e.now, rest);
      assert LastTime(e.now, rest) == LastTime(t, events) by {
        if |rest| > 0 {
          assert rest[|rest| - 1] == events[|events| - 1];
        }
      }
    }
  }

  /** From a new session, actions at times that never run back log no negative rest. */
  lemma EveryMonotoneRunHasNonNegativeRests(trackerId: int, defaults: CurrentValues, t: int, events: seq<Event>)
    requires ClockNeverRunsBack(t, events)
    ensures NonNegativeRests(Run(Initial(trackerId, defaults), events).sessionPrototype.activities)
  {
    RunKeepsTimely(Initial(trackerId, defaults), t, events);
  }

  /** Once a reachable session has a start date, no action changes it. */
  lemma StepKeepsStartDate(v: ActiveTrainingSession, c: Control, now: int)
    requires Reachable(v)
    requires v.sessionPrototype.date.Some?
    ensures Step(v, c, now).sessionPrototype.date == v.sessionPrototype.date
  {
  }

  /**
   * Log set records exactly the reps and weight shown as current values, at
   * the end of the log, and starts a rest now.
   */
  lemma LogSetRecordsCurrentValues(v: ActiveTrainingSession, now: int)
    requires PhaseOf(v) == Lifting
    ensures var r := Step(v, LogSetButton, now);
      && r.sessionPrototype.activities
         == v.sessionPrototype.activities + [Set(v.currentValues.reps, v.currentValues.weight)]
      && r.activeActivity == Some(ActiveActivity(RestType, now))
      && r.sessionPrototype.date == v.sessionPrototype.date
      && r.currentValues == v.currentValues
  {
  }

  /** Start, offered only while idle, stamps the start date, logs nothing and begins lifting. */
  lemma StartBeginsLifting(v: ActiveTrainingSession, now: int)
    requires PhaseOf(v) == Idle
    ensures var r := Step(v, StartButton, now);
      && r.sessionPrototype.date == Some(now)
      && r.sessionPrototype.activities == v.sessionPrototype.activities
      && PhaseOf(r) == Lifting
      && r.activeActivity.value.startTime == now
  {
  }

  /** Editing weight or reps changes that current value only. */
  lemma EditsChangeOnlyCurrentValues(v: ActiveTrainingSession, c: Control, now: int)
    requires c.WeightInput? || c.RepsInput?
    ensures var r := Step(v, c, now);
      && r.sessionPrototype == v.sessionPrototype
      && r.activeActivity == v.activeActivity
      && r.trackerId == v.trackerId
      && (c.WeightInput? && Offered(v, c) ==> r.currentValues == v.currentValues.(weight := c.weight))
      && (c.RepsInput? && Offered(v, c) ==> r.currentValues == v.currentValues.(reps := c.reps))
  {
  }

  /**
   * Cancel and Commit Session are never rendered together: when Cancel is,
   * nothing has been logged and the session has no date, so cancelling
   * never discards a logged activity.
   */
  lemma CancelOnlyBeforeLogging(v: ActiveTrainingSession)
    requires Reachable(v)
    requires CancelOffered(v)
    ensures !FinishOffered(v)
    ensures v.sessionPrototype.activities == [] && v.sessionPrototype.date.None?
  {
  }

  /**
   * When Commit Session is rendered for a reachable session, the session has
   * started, has a running activity, and its log begins with a set.
   */
  lemma FinishOfferedImpliesStarted(v: ActiveTrainingSession)
    requires Reachable(v)
    requires FinishOffered(v)
    ensures v.sessionPrototype.date.Some?
    ensures v.activeActivity.Some?
    ensures v.sessionPrototype.activities[0].Set?
  {
  }

  /**
   * The session as the screen's handlers see it: the fields of the immer
   * draft each handler rewrites before passing the result to `onChange`.
   */
  class ActiveSession {
    var activities: seq<Activity>
    var date: Option<int>
    var activeActivity: Option<ActiveActivity>
    var currentValues: CurrentValues
    var trackerId: int

    /** The `ActiveTrainingSession` value this object holds. */
    function Value(): ActiveTrainingSession
      reads this
    {
      ActiveTrainingSession(SessionPrototype(activities, date), activeActivity, currentValues, trackerId)
    }

    predicate Valid()
      reads this
    {
      Reachable(Value())
    }

    /** `handleNewSession` in src/App.tsx: a session seeded with default values. */
    constructor (trackerId: int, defaults: CurrentValues)
      ensures Value() == Initial(trackerId, defaults)
      ensures Valid()
    {
      activities := [];
      date := None;
      activeActivity := None;
      currentValues := defaults;
      this.trackerId := trackerId;
    }

    /** `handleLogSet`: append the set, then rest from now. */
    method LogSet(reps: int, weight: int, now: int)
      modifies this
      ensures activities == old(activities) + [Set(reps, weight)]
      ensures activeActivity == Some(ActiveActivity(RestType, now))
      ensures date == old(date) && currentValues == old(currentValues) && trackerId == old(trackerId)
    {
      activities := activities + [Set(reps, weight)];
      activeActivity := Some(ActiveActivity(RestType, now));
    }

    /** `handleChangeWeight`. */
    method ChangeWeight(weight: int)
      modifies this
      ensures currentValues == old(currentValues).(weight := weight)
      ensures activities == old(activities) && date == old(date)
      ensures activeActivity == old(activeActivity) && trackerId == old(trackerId)
    {
      currentValues := currentValues.(weight := weight);
    }

    /** `handleChangeReps`. */
    method ChangeReps(reps: int)
      modifies this
      ensures currentValues == old(currentValues).(reps := reps)
      ensures activities == old(activities) && date == old(date)
      ensures activeActivity == old(activeActivity) && trackerId == old(trackerId)
    {
      currentValues := currentValues.(reps := reps);
    }

    /** `handleClickStartNextSet`. */
    method StartNextSet(now: int)
      modifies this
      ensures Value() == StartSetAndEndRest(old(Value()), now)
    {
      if activeActivity.Some? && activeActivity.value.kind == RestType {
        activities := activities + [Rest(now - activeActivity.value.startTime)];
      }
      activeActivity := Some(ActiveActivity(SetType, now));
    }

    /** `handleClickStart`: stamp the start date, then start a set. */
    method Start(now: int)
      modifies this
      ensures date == Some(now)
      ensures Value() == StartSetAndEndRest(old(Value()).(sessionPrototype := old(Value()).sessionPrototype.(date := Some(now))), now)
    {
      date := Some(now);
      StartNextSet(now);
    }

    /**
     * A user action: the control's handler runs only when the control is
     * rendered, and the session stays reachable.
     */
    method Click(c: Control, now: int)
      requires Valid()
      modifies this
      ensures Valid()
      ensures Value() == Step(old(Value()), c, now)
    {
      StepPreservesReachable(Value(), c, now);
      if Offered(Value(), c) {
        match c
        case StartButton => Start(now);
        case LogSetButton => LogSet(currentValues.reps, currentValues.weight, now);
        case StartNextSetButton => StartNextSet(now);
        case WeightInput(w) => ChangeWeight(w);
        case RepsInput(n) => ChangeReps(n);
      }
    }
  }
}
