/**
 * The application store (src/App.tsx): the persisted tracker list, the one
 * active training session, and the reducers that add, replace and delete
 * trackers and fold a finished session into its tracker.
 */
module App {
  import opened TrainingModel
  import opened Utils
  import opened Lists
  import opened Activities
  import opened SessionFlow

  datatype AppMode = TrackersMode | NewTrackerMode | TrackerMode

  /** `trackers.find(t => t.id === id)`. */
  function FindTracker(ts: seq<Tracker>, id: int): (r: Option<Tracker>)
    ensures r.None? <==> FindIndex(ts, TrackerId, id) == -1
    ensures r.Some? ==> r.value == ts[FindIndex(ts, TrackerId, id)]
  {
    var i := FindIndex(ts, TrackerId, id);
    if i == -1 then None else Some(ts[i])
  }

  /**
   * `getSessionDefaults`: reps and weight of the first set of the tracker's
   * last session, or 0 and 0 when the tracker is missing, has no sessions, or
   * its last session holds no set. Earlier sessions are never consulted.
   */
  function SessionDefaults(tracker: Option<Tracker>): (cv: CurrentValues)
    ensures tracker.None? || tracker.value.sessions == [] ==> cv == CurrentValues(0, 0)
    ensures tracker.Some? && tracker.value.sessions != [] ==>
      var acts := tracker.value.sessions[|tracker.value.sessions| - 1].activities;
      && ((forall i :: 0 <= i < |acts| ==> !acts[i].Set?) ==> cv == CurrentValues(0, 0))
      && (forall i :: 0 <= i < |acts| && acts[i].Set? && (forall j :: 0 <= j < i ==> !acts[j].Set?) ==>
            cv == CurrentValues(acts[i].weight, acts[i].reps))
  {
    if tracker.Some? && |tracker.value.sessions| > 0 then
      var lastSession := tracker.value.sessions[|tracker.value.sessions| - 1];
      match FirstSetIndex(lastSession.activities)
      case Some(k) =>
        var firstSet := lastSession.activities[k];
        CurrentValues(firstSet.weight, firstSet.reps)
      case None => CurrentValues(0, 0)
    else CurrentValues(0, 0)
  }

  /**
   * The committed session's end: the start of the running activity when that
   * start time is truthy, otherwise the current time.
   */
  function EndDate(activeActivity: Option<ActiveActivity>, now: int): (d: int)
    ensures activeActivity.None? ==> d == now
    ensures activeActivity.Some? && activeActivity.value.startTime == 0 ==> d == now
    ensures activeActivity.Some? && activeActivity.value.startTime != 0 ==> d == activeActivity.value.startTime
  {
    var startTime := StartTimeOf(activeActivity);
    if Truthy(startTime) then startTime.value else now
  }

  /**
   * `handleCommitActiveTrainingSession` on the tracker list: when the owning
   * tracker exists and the session has a start date, append one session to
   * that tracker; otherwise leave the list as it is.
   */
  function CommitInto(ts: seq<Tracker>, s: ActiveTrainingSession, now: int): (r: seq<Tracker>)
    ensures |r| == |ts|
    ensures forall j :: 0 <= j < |ts| ==> r[j].id == ts[j].id
    ensures FindIndex(ts, TrackerId, s.trackerId) == -1 || s.sessionPrototype.date.None? ==> r == ts
  {
    var i := FindIndex(ts, TrackerId, s.trackerId);
    var date := s.sessionPrototype.date;
    if i != -1 && date.Some? then
      var sessions := ts[i].sessions;
      var committed := Session(NextIdForItems(sessions, SessionId), date.value,
                               EndDate(s.activeActivity, now), s.sessionPrototype.activities);
      ts[i := ts[i].(sessions := sessions + [committed])]
    else ts
  }

  /**
   * A commit of a started session whose tracker exists appends exactly one
   * session, to that tracker only: it carries the logged activities and the
   * start date, a fresh id above every id already in the tracker, and ends at
   * the running activity's truthy start time or else now.
   */
  lemma CommitAppendsOneSession(ts: seq<Tracker>, s: ActiveTrainingSession, now: int)
    requires FindIndex(ts, TrackerId, s.trackerId) != -1
    requires s.sessionPrototype.date.Some?
    ensures var i := FindIndex(ts, TrackerId, s.trackerId);
      var r := CommitInto(ts, s, now);
      && (forall j :: 0 <= j < |ts| && j != i ==> r[j] == ts[j])
      && r[i].id == ts[i].id && r[i].name == ts[i].name
      && r[i].description == ts[i].description && r[i].machineId == ts[i].machineId
      && |r[i].sessions| == |ts[i].sessions| + 1
      && r[i].sessions[..|ts[i].sessions|] == ts[i].sessions
      && var added := r[i].sessions[|ts[i].sessions|];
         && added.activities == s.sessionPrototype.activities
         && added.date == s.sessionPrototype.date.value
         && added.id == NextIdForItems(ts[i].sessions, SessionId)
         && (forall k :: 0 <= k < |ts[i].sessions| ==> ts[i].sessions[k].id < added.id)
         && (Truthy(StartTimeOf(s.activeActivity)) ==> added.dateEnd == s.activeActivity.value.startTime)
         && (!Truthy(StartTimeOf(s.activeActivity)) ==> added.dateEnd == now)
  {
  }

  /**
   * A commit of a timely session never ends before the session started: the
   * committed `dateEnd` is not earlier than its `date`.
   */
  lemma CommitEndNotBeforeStart(ts: seq<Tracker>, s: ActiveTrainingSession, now: int)
    requires TimelyAt(s, now)
    requires FindIndex(ts, TrackerId, s.trackerId) != -1
    requires s.sessionPrototype.date.Some?
    ensures var i := FindIndex(ts, TrackerId, s.trackerId);
      var added := CommitInto(ts, s, now)[i].sessions[|ts[i].sessions|];
      added.date <= added.dateEnd
  {
    CommitAppendsOneSession(ts, s, now);
  }

  /** A commit keeps the session ids of every tracker pairwise distinct. */
  lemma CommitKeepsSessionIdsDistinct(ts: seq<Tracker>, s: ActiveTrainingSession, now: int)
    requires forall j :: 0 <= j < |ts| ==> DistinctIds(ts[j].sessions, SessionId)
    ensures var r := CommitInto(ts, s, now);
      forall j :: 0 <= j < |r| ==> DistinctIds(r[j].sessions, SessionId)
  {
    var i := FindIndex(ts, TrackerId, s.trackerId);
    var r := CommitInto(ts, s, now);
    if i != -1 && s.sessionPrototype.date.Some? {
      var sessions := ts[i].sessions;
      var committed := r[i].sessions[|sessions|];
      assert r[i].sessions == sessions + [committed];
      AppendWithNextIdKeepsDistinct(sessions, SessionId, committed);
    }
  }

  /**
   * Committing a session the screen offers to commit, for a tracker that
   * exists, always appends a session, and its log alternates set, rest, ...
   */
  lemma CommitOfferedAppends(ts: seq<Tracker>, v: ActiveTrainingSession, now: int)
    requires Reachable(v) && FinishOffered(v)
    requires FindIndex(ts, TrackerId, v.trackerId) != -1
    ensures var i := FindIndex(ts, TrackerId, v.trackerId);
      var r := CommitInto(ts, v, now);
      && |r[i].sessions| == |ts[i].sessions| + 1
      && Alternating(r[i].sessions[|ts[i].sessions|].activities)
      && RestsFollowSets(r[i].sessions[|ts[i].sessions|].activities)
  {
    FinishOfferedImpliesStarted(v);
    CommitAppendsOneSession(ts, v, now);
    AlternatingRestsFollowSets(v.sessionPrototype.activities);
  }

  /**
   * Set the weight to 20, start at `t0`, enter 5 reps, log the set at `t1`,
   * start the next set at `t2`, commit at `t3`: the tracker gains the session
   * [5 reps at 20, rest of t2 - t1], dated `t0` and ending at `t2`, the start
   * of the set that was running, not at `t3`.
   */
  lemma CommitScenario(ts: seq<Tracker>, trackerId: int, t0: int, t1: int, t2: int, t3: int,
                       v1: ActiveTrainingSession, v2: ActiveTrainingSession, v3: ActiveTrainingSession,
                       v4: ActiveTrainingSession, v5: ActiveTrainingSession)
    requires FindIndex(ts, TrackerId, trackerId) != -1
    requires t2 != 0
    requires v1 == Step(Initial(trackerId, CurrentValues(0, 0)), WeightInput(20), t0)
    requires v2 == Step(v1, StartButton, t0)
    requires v3 == Step(v2, RepsInput(5), t0)
    requires v4 == Step(v3, LogSetButton, t1)
    requires v5 == Step(v4, StartNextSetButton, t2)
    ensures var i := FindIndex(ts, TrackerId, trackerId);
      CommitInto(ts, v5, t3)[i].sessions == ts[i].sessions
        + [Session(NextIdForItems(ts[i].sessions, SessionId), t0, t2, [Set(5, 20), Rest(t2 - t1)])]
  {
    EditsChangeOnlyCurrentValues(Initial(trackerId, CurrentValues(0, 0)), WeightInput(20), t0);
    StartBeginsLifting(v1, t0);
    EditsChangeOnlyCurrentValues(v2, RepsInput(5), t0);
    LogSetRecordsCurrentValues(v3, t1);
    assert v5.sessionPrototype == SessionPrototype([Set(5, 20), Rest(t2 - t1)], Some(t0));
    CommitAppendsOneSession(ts, v5, t3);
  }

  /**
   * The store of the application: the trackers, the active training session
   * (null when none), and the screen shown.
   */
  class Store {
    var trackers: seq<Tracker>
    var activeTrainingSession: ActiveSession?
    var appMode: AppMode
    var activeTrackerId: Option<int>

    /** Tracker ids are pairwise distinct and the active session is reachable. */
    ghost predicate Valid()
      reads this, activeTrainingSession
    {
      && DistinctIds(trackers, TrackerId)
      && (activeTrainingSession != null ==> activeTrainingSession.Valid())
    }

    constructor ()
      ensures Valid()
      ensures trackers == [] && activeTrainingSession == null
      ensures appMode == TrackersMode && activeTrackerId == None
    {
      trackers := [];
      activeTrainingSession := null;
      appMode := TrackersMode;
      activeTrackerId := None;
    }

    /** `handleSaveNewTracker`: append the tracker under the next free id. */
    method SaveNewTracker(tracker: Tracker)
      requires Valid()
      modifies this
      ensures Valid()
      ensures trackers == old(trackers) + [tracker.(id := NextIdForItems(old(trackers), TrackerId))]
      ensures appMode == TrackersMode
      ensures activeTrainingSession == old(activeTrainingSession) && activeTrackerId == old(activeTrackerId)
    {
      var newTracker := tracker.(id := NextIdForItems(trackers, TrackerId));
      AppendWithNextIdKeepsDistinct(trackers, TrackerId, newTracker);
      trackers := trackers + [newTracker];
      appMode := TrackersMode;
    }

    /** `handleChangeTracker`: replace the tracker with the same id, if any. */
    method ChangeTracker(tracker: Tracker)
      requires Valid()
      modifies this
      ensures Valid()
      ensures trackers == ReplaceFirst(old(trackers), TrackerId, tracker)
      ensures activeTrainingSession == old(activeTrainingSession)
      ensures appMode == old(appMode) && activeTrackerId == old(activeTrackerId)
    {
      ReplaceFirstKeepsDistinct(trackers, TrackerId, tracker);
      trackers := ReplaceFirst(trackers, TrackerId, tracker);
    }

    /** `handleDeleteTracker`: remove the tracker with that id, with its sessions. */
    method DeleteTracker(trackerId: int)
      requires Valid()
      modifies this
      ensures Valid()
      ensures trackers == RemoveFirst(old(trackers), TrackerId, trackerId)
      ensures forall j :: 0 <= j < |trackers| ==> trackers[j].id != trackerId
      ensures appMode == TrackersMode
      ensures activeTrainingSession == old(activeTrainingSession) && activeTrackerId == old(activeTrackerId)
    {
      RemoveFirstDropsId(trackers, TrackerId, trackerId);
      trackers := RemoveFirst(trackers, TrackerId, trackerId);
      appMode := TrackersMode;
    }

    /** `handleNewSession`: a new active session seeded from the tracker's last session. */
    method NewSession(trackerId: int)
      requires Valid()
      modifies this
      ensures Valid()
      ensures activeTrainingSession != null && fresh(activeTrainingSession)
      ensures activeTrainingSession.Value()
        == Initial(trackerId, SessionDefaults(FindTracker(trackers, trackerId)))
      ensures trackers == old(trackers) && appMode == old(appMode) && activeTrackerId == old(activeTrackerId)
    {
      var defaults := SessionDefaults(FindTracker(trackers, trackerId));
      activeTrainingSession := new ActiveSession(trackerId, defaults);
    }

    /**
     * `handleCommitActiveTrainingSession`: fold the active session into its
     * tracker, show that tracker, and drop the active session.
     */
    method CommitActiveTrainingSession(now: int)
      requires Valid()
      modifies this
      ensures Valid()
      ensures old(activeTrainingSession) == null ==>
        && trackers == old(trackers) && activeTrainingSession == null
        && appMode == old(appMode) && activeTrackerId == old(activeTrackerId)
      ensures old(activeTrainingSession) != null ==>
        && trackers == CommitInto(old(trackers), old(activeTrainingSession.Value()), now)
        && activeTrainingSession == null
        && activeTrackerId == Some(old(activeTrainingSession.trackerId))
        && appMode == TrackerMode
    {
      if activeTrainingSession == null {
        return;
      }
      var updated := CommitInto(trackers, activeTrainingSession.Value(), now);
      forall i, j | 0 <= i < j < |updated| ensures TrackerId(updated[i]) != TrackerId(updated[j]) {
        assert TrackerId(trackers[i]) != TrackerId(trackers[j]);
      }
      trackers := updated;
      activeTrackerId := Some(activeTrainingSession.trackerId);
      appMode := TrackerMode;
      activeTrainingSession := null;
    }

    /** Discard: drop the active session only when the confirmation is accepted. */
    method Discard(confirmed: bool)
      requires Valid()
      modifies this
      ensures Valid()
      ensures activeTrainingSession == if confirmed then null else old(activeTrainingSession)
      ensures trackers == old(trackers) && appMode == old(appMode) && activeTrackerId == old(activeTrackerId)
    {
      if confirmed {
        activeTrainingSession := null;
      }
    }

    /** Cancel: drop the active session without asking. */
    method Cancel()
      requires Valid()
      modifies this
      ensures Valid()
      ensures activeTrainingSession == null
      ensures trackers == old(trackers) && appMode == old(appMode) && activeTrackerId == old(activeTrackerId)
    {
      activeTrainingSession := null;
    }
  }
}
