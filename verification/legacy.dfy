/**
 * The older per-tracker session screen
 * (src/components/Tracker/TrainingSessionInterface/index.tsx).
 *
 * Its own state is an explicit mode (idle, working, resting), the start
 * times of the session and of the running rest, and the reps and weight of
 * the next set; the session being logged is a prop that every handler
 * replaces through `onChange`.
 */
module LegacySession {
  import opened TrainingModel
  import opened Activities

  /** `TrainingTrackerSessionPrototype`: a session without id and end date. */
  datatype SessionDraft = SessionDraft(date: int, activities: seq<Activity>)

  datatype Mode = IdleMode | WorkingMode | RestingMode

  /** The controls of the screen. */
  datatype Control =
    | StartButton
    | LogSetButton
    | StartNextSetButton
    | WeightInput(weight: int)
    | RepsInput(reps: int)
    | CancelButton
    | DiscardButton

  /** The reps and weight used when the caller supplies no defaults. */
  const DefaultReps := 8
  const DefaultWeight := 10

  class LegacySessionInterface {
    /** The `session` prop, as last replaced through `onChange`. */
    var session: SessionDraft
    var sessionStartTime: Option<int>
    var restingStartTime: Option<int>
    var reps: int
    var weight: int
    var mode: Mode

    /**
     * Whether a control is rendered: Start, Cancel and a weight input while
     * idle, the reps input and Log set while working, a weight input and
     * Start next set while resting; Discard always.
     */
    predicate Offered(c: Control)
      reads this
    {
      match c
      case StartButton => mode == IdleMode
      case LogSetButton => mode == WorkingMode
      case StartNextSetButton => mode == RestingMode
      case WeightInput(_) => mode == IdleMode || mode == RestingMode
      case RepsInput(_) => mode == WorkingMode
      case CancelButton => mode == IdleMode
      case DiscardButton => true
    }

    /**
     * The state every sequence of rendered actions keeps: the log holds sets
     * and rests, begins with a set and never has two rests in a row; nothing
     * is logged while idle; a truthy rest start follows a logged set.
     */
    predicate Valid()
      reads this
    {
      var acts := session.activities;
      && RestsFollowSets(acts)
      && (mode == IdleMode ==> acts == [] && restingStartTime.None?)
      && (Truthy(restingStartTime) ==> |acts| > 0 && acts[|acts| - 1].Set?)
    }

    /**
     * The stricter shape kept while every clock sample is non-zero: the log
     * alternates, with an even length while working and an odd length and a
     * running rest while resting.
     */
    predicate Alternates()
      reads this
    {
      var acts := session.activities;
      && Alternating(acts)
      && (mode == IdleMode ==> acts == [] && restingStartTime.None?)
      && (mode == WorkingMode ==> |acts| % 2 == 0 && restingStartTime.None?)
      && (mode == RestingMode ==> |acts| % 2 == 1 && Truthy(restingStartTime))
    }

    /** The first render: idle, with the caller's defaults or 8 reps at 10. */
    constructor (session: SessionDraft, defaultReps: Option<int>, defaultWeight: Option<int>)
      ensures this.session == session && mode == IdleMode
      ensures sessionStartTime == None && restingStartTime == None
      ensures reps == defaultReps.GetOr(DefaultReps) && weight == defaultWeight.GetOr(DefaultWeight)
      ensures session.activities == [] ==> Valid() && Alternates()
    {
      this.session := session;
      sessionStartTime := None;
      restingStartTime := None;
      reps := defaultReps.GetOr(DefaultReps);
      weight := defaultWeight.GetOr(DefaultWeight);
      mode := IdleMode;
    }

    /** `sessionDuration`: null while the start time is unset or 0, else the time since it. */
    function SessionDuration(now: int): (d: Option<int>)
      reads this
      ensures d.None? <==> sessionStartTime.None? || sessionStartTime.value == 0
      ensures d.Some? ==> d.value == now - sessionStartTime.value
    {
      if Truthy(sessionStartTime) then Some(now - sessionStartTime.value) else None
    }

    /** `handleAddActivity`: log the set, then rest from now. */
    method AddActivity(reps: int, weight: int, now: int)
      modifies this
      ensures session == old(session).(activities := old(session.activities) + [Set(reps, weight)])
      ensures mode == RestingMode && restingStartTime == Some(now)
      ensures sessionStartTime == old(sessionStartTime)
      ensures this.reps == old(this.reps) && this.weight == old(this.weight)
    {
      session := session.(activities := session.activities + [Set(reps, weight)]);
      mode := RestingMode;
      restingStartTime := Some(now);
    }

    /** `handleChangeWeight`. */
    method ChangeWeight(weight: int)
      modifies this
      ensures this.weight == weight
      ensures session == old(session) && mode == old(mode) && reps == old(reps)
      ensures sessionStartTime == old(sessionStartTime) && restingStartTime == old(restingStartTime)
    {
      this.weight := weight;
    }

    /** `handleChangeReps`. */
    method ChangeReps(reps: int)
      modifies this
      ensures this.reps == reps
      ensures session == old(session) && mode == old(mode) && weight == old(weight)
      ensures sessionStartTime == old(sessionStartTime) && restingStartTime == old(restingStartTime)
    {
      this.reps := reps;
    }

    /**
     * `handleClickStartNextSet`: back to working; a truthy rest start is
     * logged as a rest of the elapsed time and cleared.
     */
    method StartNextSet(now: int)
      modifies this
      ensures mode == WorkingMode
      ensures Truthy(old(restingStartTime)) ==>
        && session == old(session).(activities := old(session.activities) + [Rest(now - old(restingStartTime).value)])
        && restingStartTime == None
      ensures !Truthy(old(restingStartTime)) ==>
        session == old(session) && restingStartTime == old(restingStartTime)
      ensures sessionStartTime == old(sessionStartTime) && reps == old(reps) && weight == old(weight)
    {
      mode := WorkingMode;
      if Truthy(restingStartTime) {
        var restingDuration := now - restingStartTime.value;
        session := session.(activities := session.activities + [Rest(restingDuration)]);
        restingStartTime := None;
      }
    }

    /** `handleClickStart`: record the start time and begin working. */
    method Start(now: int)
      modifies this
      ensures sessionStartTime == Some(now) && mode == WorkingMode
      ensures session == old(session) && restingStartTime == old(restingStartTime)
      ensures reps == old(reps) && weight == old(weight)
    {
      sessionStartTime := Some(now);
      mode := WorkingMode;
    }

    /**
     * A user action at time `now`. A control that is not rendered does
     * nothing; Cancel and Discard do nothing either, because the tracker view
     * does not pass the `onClickDiscard` handler they call. The log only
     * grows, its date never changes, and the invariants are kept (the strict
     * one when `now` is not 0).
     */
    method Click(c: Control, now: int)
      requires Valid()
      modifies this
      ensures Valid()
      ensures old(Alternates()) && now != 0 ==> Alternates()
      ensures !old(Offered(c)) || c.CancelButton? || c.DiscardButton? ==>
        && session == old(session) && mode == old(mode) && reps == old(reps) && weight == old(weight)
        && sessionStartTime == old(sessionStartTime) && restingStartTime == old(restingStartTime)
      ensures session.date == old(session.date)
      ensures old(session.activities) <= session.activities
      ensures c.StartButton? && old(Offered(c)) ==>
        && sessionStartTime == Some(now) && mode == WorkingMode
        && session == old(session) && restingStartTime == old(restingStartTime)
        && reps == old(reps) && weight == old(weight)
      ensures c.LogSetButton? && old(Offered(c)) ==>
        && session.activities == old(session.activities) + [Set(old(reps), old(weight))]
        && mode == RestingMode && restingStartTime == Some(now)
        && sessionStartTime == old(sessionStartTime) && reps == old(reps) && weight == old(weight)
      ensures c.StartNextSetButton? && old(Offered(c)) ==>
        && mode == WorkingMode
        && sessionStartTime == old(sessionStartTime) && reps == old(reps) && weight == old(weight)
        && (Truthy(old(restingStartTime)) ==>
              && session.activities == old(session.activities) + [Rest(now - old(restingStartTime).value)]
              && restingStartTime == None)
        && (!Truthy(old(restingStartTime)) ==>
              session == old(session) && restingStartTime == old(restingStartTime))
      ensures c.WeightInput? && old(Offered(c)) ==>
        && weight == c.weight
        && session == old(session) && mode == old(mode) && reps == old(reps)
        && sessionStartTime == old(sessionStartTime) && restingStartTime == old(restingStartTime)
      ensures c.RepsInput? && old(Offered(c)) ==>
        && reps == c.reps
        && session == old(session) && mode == old(mode) && weight == old(weight)
        && sessionStartTime == old(sessionStartTime) && restingStartTime == old(restingStartTime)
    {
      ghost var acts := session.activities;
      if Offered(c) {
        match c
        case StartButton => Start(now);
        case LogSetButton =>
          RestsFollowSetsAppend(acts, Set(reps, weight));
          if Alternates() {
            AlternatingAppend(acts, Set(reps, weight));
          }
          AddActivity(reps, weight, now);
        case StartNextSetButton =>
          if Truthy(restingStartTime) {
            RestsFollowSetsAppend(acts, Rest(now - restingStartTime.value));
            if Alternates() {
              AlternatingAppend(acts, Rest(now - restingStartTime.value));
            }
          }
          StartNextSet(now);
        case WeightInput(w) => ChangeWeight(w);
        case RepsInput(n) => ChangeReps(n);
        case CancelButton =>
        case DiscardButton =>
      }
    }
  }
}
