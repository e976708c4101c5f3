/**
 * The tracker screen (src/components/Tracker/index.tsx): its session
 * history, the older per-tracker session flow it starts and commits, the
 * confirmed deletion of a session or of the tracker, and the weight summary
 * of each session.
 *
 * The tracker is a prop; every change is handed to the parent through
 * `onChange` or `onDelete`, which the methods below return.
 */
module TrackerView {
  import opened TrainingModel
  import opened Utils
  import opened Lists
  import opened Activities
  import opened LegacySession
  import App

  /**
   * The default reps and weight handed to the session screen: those of the
   * first set of the last session, or none at all (so the screen's own 8 and
   * 10 apply) when there is no session or the last one holds no set.
   */
  function LegacyDefaults(t: Tracker): (d: Option<(int, int)>)
    ensures t.sessions == [] ==> d.None?
    ensures t.sessions != [] ==>
      var acts := t.sessions[|t.sessions| - 1].activities;
      && (d.None? <==> forall i :: 0 <= i < |acts| ==> !acts[i].Set?)
      && (forall i :: 0 <= i < |acts| && acts[i].Set? && (forall j :: 0 <= j < i ==> !acts[j].Set?) ==>
            d == Some((acts[i].reps, acts[i].weight)))
  {
    if |t.sessions| > 0 then
      var lastSession := t.sessions[|t.sessions| - 1];
      match FirstSetIndex(lastSession.activities)
      case Some(k) => Some((lastSession.activities[k].reps, lastSession.activities[k].weight))
      case None => None
    else None
  }

  /**
   * The older flow and the application's `getSessionDefaults` seed the same
   * reps and weight when the last session holds a set; otherwise the
   * application uses 0 and 0, and the older screen its own 8 and 10 (see
   * `TrackerScreen.OpenSessionScreen`).
   */
  lemma LegacyDefaultsAgreeWithSessionDefaults(t: Tracker)
    ensures var d := LegacyDefaults(t);
      var cv := App.SessionDefaults(Some(t));
      && (d.Some? ==> cv == CurrentValues(d.value.1, d.value.0))
      && (d.None? ==> cv == CurrentValues(0, 0))
  {
    if t.sessions != [] {
      var acts := t.sessions[|t.sessions| - 1].activities;
      var k := FirstSetIndex(acts);
      if k.Some? {
        assert acts[k.value].Set?;
      }
    }
  }

  /**
   * `handleCommitSession` on the tracker: the tracker keeps its identity and
   * its sessions in order, and gains exactly one session at the end: the
   * draft's date and log, ending now, under the id `getNextIdForItems`
   * allocates for the sessions, which is above every existing one.
   */
  function AppendSession(t: Tracker, draft: SessionDraft, now: int): (r: Tracker)
    ensures r.id == t.id && r.name == t.name && r.description == t.description && r.machineId == t.machineId
    ensures |r.sessions| == |t.sessions| + 1
    ensures r.sessions[..|t.sessions|] == t.sessions
    ensures var added := r.sessions[|t.sessions|];
      && added.date == draft.date && added.dateEnd == now && added.activities == draft.activities
      && added.id == NextIdForItems(t.sessions, SessionId)
      && (forall k :: 0 <= k < |t.sessions| ==> t.sessions[k].id < added.id)
  {
    var committed := Session(NextIdForItems(t.sessions, SessionId), draft.date, now, draft.activities);
    assert (t.sessions + [committed])[..|t.sessions|] == t.sessions;
    t.(sessions := t.sessions + [committed])
  }

  /** Committing keeps the tracker's session ids pairwise distinct. */
  lemma AppendSessionKeepsIdsDistinct(t: Tracker, draft: SessionDraft, now: int)
    requires DistinctIds(t.sessions, SessionId)
    ensures DistinctIds(AppendSession(t, draft, now).sessions, SessionId)
  {
    var r := AppendSession(t, draft, now);
    assert r.sessions == t.sessions + [r.sessions[|t.sessions|]];
    AppendWithNextIdKeepsDistinct(t.sessions, SessionId, r.sessions[|t.sessions|]);
  }

  /**
   * The `produce` recipe of `handleDeleteSession`: the tracker keeps its
   * identity; nothing changes when no session has the id, and otherwise the
   * first session with it is dropped and the others keep their order.
   */
  function RemoveSession(t: Tracker, sessionId: int): (r: Tracker)
    ensures r.id == t.id && r.name == t.name && r.description == t.description && r.machineId == t.machineId
    ensures FindIndex(t.sessions, SessionId, sessionId) == -1 ==> r == t
    ensures FindIndex(t.sessions, SessionId, sessionId) != -1 ==>
      var i := FindIndex(t.sessions, SessionId, sessionId);
      && |r.sessions| == |t.sessions| - 1
      && (forall j :: 0 <= j < i ==> r.sessions[j] == t.sessions[j])
      && (forall j :: i <= j < |r.sessions| ==> r.sessions[j] == t.sessions[j + 1])
  {
    t.(sessions := RemoveFirst(t.sessions, SessionId, sessionId))
  }

  /** With distinct session ids, no session with the removed id remains and the rest stay distinct. */
  lemma RemoveSessionDropsIt(t: Tracker, sessionId: int)
    requires DistinctIds(t.sessions, SessionId)
    ensures DistinctIds(RemoveSession(t, sessionId).sessions, SessionId)
    ensures forall k :: 0 <= k < |RemoveSession(t, sessionId).sessions| ==> RemoveSession(t, sessionId).sessions[k].id != sessionId
  {
    RemoveFirstDropsId(t.sessions, SessionId, sessionId);
  }

  /**
   * The weights of the session's sets, in order, skipping rests and
   * supersets: the `reduce` in `SessionWeight`.
   */
  function SetWeights(acts: seq<Activity>): (ws: seq<int>)
    ensures |ws| == CountSets(acts)
    decreases |acts|
  {
    if |acts| == 0 then []
    else
      var last := acts[|acts| - 1];
      SetWeights(acts[..|acts| - 1]) + (if last.Set? then [last.weight] else [])
  }

  /** A weight is listed exactly when some set of the session carries it. */
  lemma {:induction false} SetWeightsMembers(acts: seq<Activity>)
    ensures forall w :: w in SetWeights(acts) <==> exists i :: 0 <= i < |acts| && acts[i].Set? && acts[i].weight == w
    decreases |acts|
  {
    if |acts| > 0 {
      var init := acts[..|acts| - 1];
      SetWeightsMembers(init);
      forall w ensures w in SetWeights(acts) <==> exists i :: 0 <= i < |acts| && acts[i].Set? && acts[i].weight == w {
        if w in SetWeights(acts) && w in SetWeights(init) {
          var i :| 0 <= i < |init| && init[i].Set? && init[i].weight == w;
          assert acts[i] == init[i];
        }
        if exists i :: 0 <= i < |acts| && acts[i].Set? && acts[i].weight == w {
          var i :| 0 <= i < |acts| && acts[i].Set? && acts[i].weight == w;
          if i < |init| {
            assert init[i] == acts[i];
          }
        }
      }
    }
  }

  /**
   * The weights are collected in order: the set at position i contributes
   * the entry whose index is the number of sets before it. With the length
   * in `SetWeights`' contract, this fixes the whole list.
   */
  lemma {:induction false} SetWeightsInOrder(acts: seq<Activity>)
    ensures forall i :: 0 <= i < |acts| && acts[i].Set? ==>
      CountSets(acts[..i]) < |SetWeights(acts)| && SetWeights(acts)[CountSets(acts[..i])] == acts[i].weight
    decreases |acts|
  {
    if |acts| > 0 {
      var n := |acts| - 1;
      var init := acts[..n];
      SetWeightsInOrder(init);
      forall i | 0 <= i < |acts| && acts[i].Set?
        ensures CountSets(acts[..i]) < |SetWeights(acts)| && SetWeights(acts)[CountSets(acts[..i])] == acts[i].weight
      {
        if i < n {
          assert init[..i] == acts[..i];
          assert init[i] == acts[i];
        } else {
          assert acts[..i] == init;
        }
      }
    }
  }

  /** What `SessionWeight` shows before "kg": one weight, `undefined`, or "Mixed". */
  datatype WeightLabel = Uniform(weight: Option<int>) | Mixed

  /**
   * `SessionWeight`: the weight shared by every set, nothing when there is no
   * set, and Mixed exactly when two sets differ in weight.
   */
  function SessionWeight(s: Session): (l: WeightLabel)
    ensures l == Uniform(None) <==> forall i :: 0 <= i < |s.activities| ==> !s.activities[i].Set?
    ensures l.Uniform? && l.weight.Some? ==>
      forall i :: 0 <= i < |s.activities| && s.activities[i].Set? ==> s.activities[i].weight == l.weight.value
    ensures l.Mixed? <==>
      exists i, j :: 0 <= i < |s.activities| && 0 <= j < |s.activities|
        && s.activities[i].Set? && s.activities[j].Set? && s.activities[i].weight != s.activities[j].weight
  {
    var acts := s.activities;
    var ws := SetWeights(acts);
    SetWeightsMembers(acts);
    if forall k :: 0 <= k < |ws| ==> ws[k] == ws[0] then
      if |ws| == 0 then
        assert forall i :: 0 <= i < |acts| ==> !(acts[i].Set? && acts[i].weight in ws);
        Uniform(None)
      else
        assert forall i :: 0 <= i < |acts| && acts[i].Set? ==> acts[i].weight == ws[0] by {
          forall i | 0 <= i < |acts| && acts[i].Set? ensures acts[i].weight == ws[0] {
            assert acts[i].weight in ws;
          }
        }
        assert ws[0] in ws;
        Uniform(Some(ws[0]))
    else
      var k :| 0 <= k < |ws| && ws[k] != ws[0];
      assert ws[k] in ws && ws[0] in ws;
      Mixed
  }

  /** The tracker screen's own state: the tracker prop and the session being logged, if any. */
  class TrackerScreen {
    var tracker: Tracker
    var activeSession: Option<SessionDraft>

    constructor (tracker: Tracker)
      ensures this.tracker == tracker && activeSession == None
    {
      this.tracker := tracker;
      activeSession := None;
    }

    /**
     * While a draft is open, the tracker screen shows the older session
     * screen for it, first rendered idle with the reps and weight of
     * `LegacyDefaults`, or with that screen's own 8 and 10 when there are none.
     */
    method OpenSessionScreen() returns (screen: LegacySessionInterface?)
      ensures activeSession.None? ==> screen == null
      ensures activeSession.Some? ==>
        && screen != null && fresh(screen)
        && screen.session == activeSession.value && screen.mode == IdleMode
        && screen.sessionStartTime == None && screen.restingStartTime == None
        && (LegacyDefaults(tracker).Some? ==>
              screen.reps == LegacyDefaults(tracker).value.0 && screen.weight == LegacyDefaults(tracker).value.1)
        && (LegacyDefaults(tracker).None? ==> screen.reps == DefaultReps && screen.weight == DefaultWeight)
    {
      if activeSession.None? {
        return null;
      }
      var d := LegacyDefaults(tracker);
      var defaultReps := if d.Some? then Some(d.value.0) else None;
      var defaultWeight := if d.Some? then Some(d.value.1) else None;
      screen := new LegacySessionInterface(activeSession.value, defaultReps, defaultWeight);
    }

    /** `handleClickStartSession`: a draft dated now with an empty log. */
    method StartSession(now: int)
      modifies this
      ensures activeSession == Some(SessionDraft(now, []))
      ensures tracker == old(tracker)
    {
      activeSession := Some(SessionDraft(now, []));
    }

    /** `handleCommitSession`: hand the tracker with the session appended to `onChange`, and close the draft. */
    method CommitSession(session: SessionDraft, now: int) returns (changed: Tracker)
      modifies this
      ensures changed == AppendSession(old(tracker), session, now)
      ensures activeSession == None && tracker == old(tracker)
    {
      changed := AppendSession(tracker, session, now);
      activeSession := None;
    }

    /** `handleClickCancel`: close the draft without committing. */
    method Cancel()
      modifies this
      ensures activeSession == None && tracker == old(tracker)
    {
      activeSession := None;
    }

    /**
     * `handleDeleteSession`: when confirmed, hand the tracker without that
     * session to `onChange`; otherwise nothing is handed on.
     */
    method DeleteSession(sessionId: int, confirmed: bool) returns (changed: Option<Tracker>)
      ensures confirmed ==> changed == Some(RemoveSession(tracker, sessionId))
      ensures !confirmed ==> changed.None?
    {
      if confirmed {
        changed := Some(RemoveSession(tracker, sessionId));
      } else {
        changed := None;
      }
    }

    /** `handleClickDelete`: hand the tracker's id to `onDelete` only when confirmed. */
    method ClickDelete(confirmed: bool) returns (deleted: Option<int>)
      ensures confirmed ==> deleted == Some(tracker.id)
      ensures !confirmed ==> deleted.None?
    {
      deleted := if confirmed then Some(tracker.id) else None;
    }
  }
}
