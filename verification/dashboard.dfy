/** The dashboard figures of `server/routes.ts`: the journaling streak, the overall
    progress percentage and the assembled dashboard record. Timestamps are integer
    milliseconds since the epoch and "today" is a parameter. */
module Dashboard {
  import opened Optional
  import opened Schema
  import opened Ranking

  /** `1000 * 60 * 60 * 24` */
  const MsPerDay: int := 86400000

  /** `Math.floor((today - t) / MsPerDay)`: whole days from `t` to `today`. The divisor is
      positive, so Dafny's division is the floor the source takes, also for future `t`. */
  function DaysAgo(today: int, t: int): (r: int)
    ensures r * MsPerDay <= today - t < (r + 1) * MsPerDay
  {
    (today - t) / MsPerDay
  }

  function CreatedAt(e: JournalEntry): real {
    e.createdAt as real
  }

  /** The entries newest first (`sort((a, b) => b.createdAt - a.createdAt)`). */
  function NewestFirst(entries: seq<JournalEntry>): (r: seq<JournalEntry>)
    ensures |r| == |entries| && multiset(r) == multiset(entries)
    ensures forall i, j :: 0 <= i < j < |r| ==> r[i].createdAt >= r[j].createdAt
  {
    SortDesc(entries, CreatedAt)
  }

  /** `calculateStreak`: walks the entries newest first while entry `i` was written
      exactly `i` days ago. The result is the length of the longest such prefix. */
  method CalculateStreak(today: int, entries: seq<JournalEntry>) returns (streak: nat)
    ensures streak <= |entries|
    ensures forall i :: 0 <= i < streak ==> DaysAgo(today, NewestFirst(entries)[i].createdAt) == i
    ensures streak < |entries| ==> DaysAgo(today, NewestFirst(entries)[streak].createdAt) != streak
  {
    if |entries| == 0 {
      return 0;
    }
    streak := 0;
    var sorted := NewestFirst(entries);
    var i := 0;
    while i < |sorted|
      invariant 0 <= i <= |sorted| && streak == i
      invariant forall k :: 0 <= k < i ==> DaysAgo(today, sorted[k].createdAt) == k
    {
      var daysDiff := DaysAgo(today, sorted[i].createdAt);
      if daysDiff == i {
        streak := streak + 1;
      } else {
        break;
      }
      i := i + 1;
    }
  }

  /** The streak as a function: the run of consecutive days from today, counted from
      position `i` of the newest-first list. */
  function StreakFrom(today: int, sorted: seq<JournalEntry>, i: nat): (r: nat)
    requires i <= |sorted|
    ensures i + r <= |sorted|
    ensures forall k :: i <= k < i + r ==> DaysAgo(today, sorted[k].createdAt) == k
    ensures i + r < |sorted| ==> DaysAgo(today, sorted[i + r].createdAt) != i + r
    decreases |sorted| - i
  {
    if i == |sorted| || DaysAgo(today, sorted[i].createdAt) != i then 0
    else 1 + StreakFrom(today, sorted, i + 1)
  }

  /** The streak `calculateStreak` computes: the longest run of newest-first entries in
      which entry `i` was written exactly `i` days ago. */
  function Streak(today: int, entries: seq<JournalEntry>): (r: nat)
    ensures r <= |entries|
    ensures forall i :: 0 <= i < r ==> DaysAgo(today, NewestFirst(entries)[i].createdAt) == i
    ensures r < |entries| ==> DaysAgo(today, NewestFirst(entries)[r].createdAt) != r
  {
    StreakFrom(today, NewestFirst(entries), 0)
  }

  /** The loop and the recursive definition agree: both are the longest prefix. */
  lemma StreakUnique(today: int, entries: seq<JournalEntry>, s: nat)
    requires s <= |entries|
    requires forall i :: 0 <= i < s ==> DaysAgo(today, NewestFirst(entries)[i].createdAt) == i
    requires s < |entries| ==> DaysAgo(today, NewestFirst(entries)[s].createdAt) != s
    ensures s == Streak(today, entries)
  {
  }

  /** No entries, no streak; and if the newest entry is at least a day old (or dated in
      the future) the streak is 0. */
  lemma StreakNeedsEntryToday(today: int, entries: seq<JournalEntry>)
    requires |entries| == 0 || DaysAgo(today, NewestFirst(entries)[0].createdAt) != 0
    ensures Streak(today, entries) == 0
  {
  }

  /** Two entries on the same day end the streak at the first of them: only one entry per
      day is counted. */
  lemma SameDayEndsStreak(today: int, entries: seq<JournalEntry>, i: nat)
    requires i + 1 < |entries|
    requires DaysAgo(today, NewestFirst(entries)[i].createdAt) == DaysAgo(today, NewestFirst(entries)[i + 1].createdAt)
    ensures Streak(today, entries) <= i + 1
  {
  }

  /** `calculateOverallProgress` */
  function OverallProgress(hasAssessment: bool, journalCount: nat): (r: int)
    ensures 0 <= r <= 100 && r % 20 == 0
    ensures r == 100 <==> hasAssessment && journalCount >= 10
  {
    var progress := (if hasAssessment then 40 else 0) + (if journalCount > 0 then 20 else 0)
                    + (if journalCount >= 5 then 20 else 0) + (if journalCount >= 10 then 20 else 0);
    if progress < 100 then progress else 100
  }

  /** An assessment is worth exactly 40 points, and journal entries the rest: 20 for the
      first, 20 more at five, 20 more at ten. */
  lemma ProgressParts(hasAssessment: bool, journalCount: nat)
    ensures OverallProgress(true, journalCount) == OverallProgress(false, journalCount) + 40
    ensures OverallProgress(false, journalCount) ==
            if journalCount >= 10 then 60 else if journalCount >= 5 then 40
            else if journalCount > 0 then 20 else 0
  {
  }

  /** Writing more entries never lowers the progress. */
  lemma ProgressMonotone(hasAssessment: bool, n: nat, m: nat)
    requires n <= m
    ensures OverallProgress(hasAssessment, n) <= OverallProgress(hasAssessment, m)
  {
  }

  /** The record returned by `GET /api/dashboard`. */
  datatype Stats = Stats(
    assessmentComplete: bool,
    journalEntryCount: nat,
    journalStreak: nat,
    topRecommendations: seq<Recommendation>,
    overallProgress: int)

  /** The number of recommendations the dashboard shows. */
  const TopShown: nat := 3

  /** The dashboard assembly over the stored assessment, entries and recommendations. */
  function DashboardStats(today: int, assessment: Option<TraitVector>, entries: seq<JournalEntry>,
                          recommendations: seq<Recommendation>): (r: Stats)
    ensures r.assessmentComplete <==> assessment.Some?
    ensures r.journalEntryCount == |entries|
    ensures r.journalStreak == Streak(today, entries) && r.journalStreak <= |entries|
    ensures |r.topRecommendations| == if |recommendations| < TopShown then |recommendations| else TopShown
    ensures r.topRecommendations <= recommendations
    ensures r.overallProgress == OverallProgress(assessment.Some?, |entries|)
    ensures r.overallProgress == 100 <==> assessment.Some? && |entries| >= 10
  {
    var n := if |recommendations| < TopShown then |recommendations| else TopShown;
    Stats(assessment.Some?, |entries|, Streak(today, entries), recommendations[..n],
          OverallProgress(assessment.Some?, |entries|))
  }

  /** The store returns recommendations best first, so the three shown are the three best:
      every recommendation left out scores no higher than each one shown. */
  lemma TopShownAreBest(today: int, assessment: Option<TraitVector>, entries: seq<JournalEntry>,
                        recommendations: seq<Recommendation>, x: Recommendation)
    requires SortedDesc(recommendations, MatchScore)
    requires x in recommendations
    requires x !in DashboardStats(today, assessment, entries, recommendations).topRecommendations
    ensures forall y :: y in DashboardStats(today, assessment, entries, recommendations).topRecommendations
              ==> y.matchScore >= x.matchScore
  {
    var n := if |recommendations| < TopShown then |recommendations| else TopShown;
    SortedPrefixDominates(recommendations, MatchScore, n, x);
  }
}
