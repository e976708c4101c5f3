/**
 * The shapes of the gym tracker's data (src/global.d.ts).
 *
 * Timestamps, and the ISO-8601 date strings the application stores, are
 * represented by the epoch-millisecond integer they encode. Weights are only
 * stored and compared for equality, so they are integers here.
 */
module TrainingModel {

  datatype Option<+T> = None | Some(value: T) {
    /** The value, or `default` when absent (JavaScript's default parameters). */
    function GetOr(default: T): T {
      if Some? then value else default
    }
  }

  /** `TrainingActivityType`: the `type` tag of an activity. */
  datatype ActivityType = RestType | SetType | SuperSetType

  /** `TrainingActivity`: exactly one of three tagged variants. */
  datatype Activity =
    | Rest(duration: int)
    | Set(reps: int, weight: int)
    | SuperSet(repsA: int, repsB: int, weightA: int, weightB: int)

  /** `TrainingTrackerSession`: a persisted session. */
  datatype Session = Session(id: int, date: int, dateEnd: int, activities: seq<Activity>)

  /** `TrainingTracker`: an exercise with its ordered session history. */
  datatype Tracker = Tracker(
    id: int,
    name: string,
    description: Option<string>,
    machineId: Option<int>,
    sessions: seq<Session>)

  /** `TrainingMachine`. */
  datatype Machine = Machine(id: int, name: string)

  /** `ActiveTrainingSession["sessionPrototype"]`: no id or dateEnd, and a nullable date. */
  datatype SessionPrototype = SessionPrototype(activities: seq<Activity>, date: Option<int>)

  /** `ActiveTrainingSession["activeActivity"]` when it is not null. */
  datatype ActiveActivity = ActiveActivity(kind: ActivityType, startTime: int)

  /** `ActiveTrainingSession["currentValues"]`: the values of the next set to log. */
  datatype CurrentValues = CurrentValues(weight: int, reps: int)

  /** `ActiveTrainingSession`: the in-progress session, persisted as a plain value. */
  datatype ActiveTrainingSession = ActiveTrainingSession(
    sessionPrototype: SessionPrototype,
    activeActivity: Option<ActiveActivity>,
    currentValues: CurrentValues,
    trackerId: int)

  /** JavaScript truthiness of a nullable timestamp: `null` and `0` are falsy. */
  predicate Truthy(t: Option<int>) {
    t.Some? && t.value != 0
  }

  /** `activeActivity?.startTime`: the start time, or nothing when there is no running activity. */
  function StartTimeOf(activeActivity: Option<ActiveActivity>): Option<int> {
    if activeActivity.Some? then Some(activeActivity.value.startTime) else None
  }

  function TrackerId(t: Tracker): int { t.id }

  function SessionId(s: Session): int { s.id }
}
