/**
 * Pure functions over an ordered activity log, shared by both session flows
 * and by the tracker views: the first logged set, the displayed set number,
 * and the shapes a log produced by a session can have.
 */
module Activities {
  import opened TrainingModel

  /** `activities.find(a => a.type === "set")`, as the position it is found at. */
  function FirstSetIndex(acts: seq<Activity>): (r: Option<nat>)
    ensures r.None? <==> forall i :: 0 <= i < |acts| ==> !acts[i].Set?
    ensures r.Some? ==> r.value < |acts| && acts[r.value].Set?
    ensures r.Some? ==> forall j :: 0 <= j < r.value ==> !acts[j].Set?
    decreases |acts|
  {
    if |acts| == 0 then None
    else if acts[0].Set? then Some(0)
    else
      assert forall j :: 1 <= j < |acts| ==> acts[j] == acts[1..][j - 1];
      match FirstSetIndex(acts[1..])
      case None => None
      case Some(k) => Some(k + 1)
  }

  /** `activities.filter(a => a.type === "set").length`. */
  function CountSets(acts: seq<Activity>): (n: nat)
    ensures n <= |acts|
    ensures n == 0 <==> forall i :: 0 <= i < |acts| ==> !acts[i].Set?
    decreases |acts|
  {
    if |acts| == 0 then 0
    else CountSets(acts[..|acts| - 1]) + (if acts[|acts| - 1].Set? then 1 else 0)
  }

  /**
   * The number shown for the activity at position `i`: the count of sets in
   * `activities.slice(0, i + 1)`.
   */
  function SetNumber(acts: seq<Activity>, i: nat): (n: nat)
    requires i < |acts|
    ensures n <= i + 1
    ensures acts[i].Set? ==> 1 <= n
  {
    CountSets(acts[..i + 1])
  }

  /** The log reads set, rest, set, rest, ... beginning with a set. */
  predicate Alternating(acts: seq<Activity>) {
    forall i :: 0 <= i < |acts| ==> if i % 2 == 0 then acts[i].Set? else acts[i].Rest?
  }

  /**
   * Every entry is a set or a rest, the first is a set, and every rest
   * directly follows a set: no two consecutive rests.
   */
  predicate RestsFollowSets(acts: seq<Activity>) {
    forall i :: 0 <= i < |acts| ==> acts[i].Set? || (acts[i].Rest? && 0 < i && acts[i - 1].Set?)
  }

  lemma AlternatingRestsFollowSets(acts: seq<Activity>)
    requires Alternating(acts)
    ensures RestsFollowSets(acts)
  {
    forall i | 0 <= i < |acts| && !acts[i].Set?
      ensures acts[i].Rest? && 0 < i && acts[i - 1].Set?
    {
      assert i % 2 == 1;
      assert (i - 1) % 2 == 0;
    }
  }

  /** Appending a set at an even position, or a rest at an odd one, keeps a log alternating. */
  lemma AlternatingAppend(acts: seq<Activity>, a: Activity)
    requires Alternating(acts)
    requires if |acts| % 2 == 0 then a.Set? else a.Rest?
    ensures Alternating(acts + [a])
  {
    var s := acts + [a];
    forall i | 0 <= i < |s| ensures if i % 2 == 0 then s[i].Set? else s[i].Rest? {
      if i < |acts| {
        assert s[i] == acts[i];
      }
    }
  }

  /** Appending a set, or a rest right after a set, keeps rests following sets. */
  lemma RestsFollowSetsAppend(acts: seq<Activity>, a: Activity)
    requires RestsFollowSets(acts)
    requires a.Set? || (a.Rest? && |acts| > 0 && acts[|acts| - 1].Set?)
    ensures RestsFollowSets(acts + [a])
  {
    var s := acts + [a];
    forall i | 0 <= i < |s| ensures s[i].Set? || (s[i].Rest? && 0 < i && s[i - 1].Set?) {
      if i < |acts| {
        assert s[i] == acts[i];
        assert acts[i].Set? || (acts[i].Rest? && 0 < i && acts[i - 1].Set?);
        if 0 < i {
          assert s[i - 1] == acts[i - 1];
        }
      } else if a.Rest? {
        assert s[i - 1] == acts[|acts| - 1];
      }
    }
  }

  /** In an alternating log, the prefix of length `n` holds `(n + 1) / 2` sets. */
  lemma {:induction false} CountSetsOfAlternatingPrefix(acts: seq<Activity>, n: nat)
    requires Alternating(acts)
    requires n <= |acts|
    ensures CountSets(acts[..n]) == (n + 1) / 2
  {
    if n > 0 {
      CountSetsOfAlternatingPrefix(acts, n - 1);
      assert acts[..n][..n - 1] == acts[..n - 1];
      assert acts[..n][n - 1] == acts[n - 1];
    }
  }

  /** In a log produced by a session, the set at position `2k` is shown as set number `k + 1`. */
  lemma SetNumberOfAlternating(acts: seq<Activity>, i: nat)
    requires Alternating(acts)
    requires i < |acts|
    ensures SetNumber(acts, i) == i / 2 + 1
  {
    CountSetsOfAlternatingPrefix(acts, i + 1);
  }

  /**
   * In any log, a set's number is one more than the sets before it, so the
   * sets are numbered 1, 2, 3, ... in order.
   */
  lemma SetNumberCountsEarlierSets(acts: seq<Activity>, i: nat)
    requires i < |acts|
    requires acts[i].Set?
    ensures SetNumber(acts, i) == CountSets(acts[..i]) + 1
  {
    assert acts[..i + 1][..i] == acts[..i];
  }

  /** Counting sets over a longer prefix never gives fewer. */
  lemma {:induction false} CountSetsMonotone(acts: seq<Activity>, m: nat, n: nat)
    requires m <= n <= |acts|
    ensures CountSets(acts[..m]) <= CountSets(acts[..n])
    decreases n - m
  {
    if m < n {
      CountSetsMonotone(acts, m, n - 1);
      assert acts[..n][..n - 1] == acts[..n - 1];
    }
  }

  /** Two different sets never carry the same number. */
  lemma SetNumbersStrictlyIncrease(acts: seq<Activity>, i: nat, j: nat)
    requires i < j < |acts|
    requires acts[i].Set? && acts[j].Set?
    ensures SetNumber(acts, i) < SetNumber(acts, j)
  {
    SetNumberCountsEarlierSets(acts, j);
    CountSetsMonotone(acts, i + 1, j);
  }
}
