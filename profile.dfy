/**
 * The profile page (src/pages/Profile.tsx): the three counters copied
 * from the profile row and the achievements unlocked by them.
 */
module Profiles {
  import opened Wrappers

  /** The fields of a `profiles` row the page reads. */
  datatype Profile = Profile(
    fullName: string, email: string, avatarUrl: string,
    dailyStreak: int, totalLessonsCompleted: int, totalNotes: int)

  /** `UserStats`. */
  datatype Stats = Stats(dailyStreak: int, totalLessonsCompleted: int, totalNotes: int)

  /** An achievement card (its icon is left out). */
  datatype Achievement = Achievement(title: string, description: string, unlocked: bool)

  /** The initial `stats` state. */
  const InitialStats := Stats(0, 0, 0)

  /** The titles of the achievements, in display order. */
  const AchievementTitles := ["First Steps", "Week Warrior", "Knowledge Seeker", "Note Taker", "Dedicated Learner"]

  /** `generateAchievements(stats)`: five cards in a fixed order, each unlocked by one threshold. */
  function GenerateAchievements(stats: Stats): (r: seq<Achievement>)
    ensures |r| == 5
    ensures forall i :: 0 <= i < 5 ==> r[i].title == AchievementTitles[i]
    ensures r[0].unlocked <==> stats.totalLessonsCompleted >= 1
    ensures r[1].unlocked <==> stats.dailyStreak >= 7
    ensures r[2].unlocked <==> stats.totalLessonsCompleted >= 10
    ensures r[3].unlocked <==> stats.totalNotes >= 5
    ensures r[4].unlocked <==> stats.dailyStreak >= 30
  {
    [ Achievement("First Steps", "Complete your first lesson", stats.totalLessonsCompleted >= 1),
      Achievement("Week Warrior", "Maintain a 7-day streak", stats.dailyStreak >= 7),
      Achievement("Knowledge Seeker", "Complete 10 lessons", stats.totalLessonsCompleted >= 10),
      Achievement("Note Taker", "Create 5 notes", stats.totalNotes >= 5),
      Achievement("Dedicated Learner", "Maintain a 30-day streak", stats.dailyStreak >= 30) ]
  }

  /** Every counter of `a` is at most the same counter of `b`. */
  predicate AtMost(a: Stats, b: Stats) {
    a.dailyStreak <= b.dailyStreak && a.totalLessonsCompleted <= b.totalLessonsCompleted && a.totalNotes <= b.totalNotes
  }

  /** Raising counters never locks an achievement again. */
  lemma UnlockMonotone(a: Stats, b: Stats)
    requires AtMost(a, b)
    ensures forall i :: 0 <= i < 5 && GenerateAchievements(a)[i].unlocked ==> GenerateAchievements(b)[i].unlocked
  {
  }

  /** The harder achievement of each pair implies the easier one. */
  lemma HarderImpliesEasier(stats: Stats)
    ensures GenerateAchievements(stats)[4].unlocked ==> GenerateAchievements(stats)[1].unlocked
    ensures GenerateAchievements(stats)[2].unlocked ==> GenerateAchievements(stats)[0].unlocked
  {
  }

  /** The counters of a profile, copied unchanged. */
  function StatsOf(p: Profile): (s: Stats)
    ensures s.dailyStreak == p.dailyStreak
    ensures s.totalLessonsCompleted == p.totalLessonsCompleted
    ensures s.totalNotes == p.totalNotes
  {
    Stats(p.dailyStreak, p.totalLessonsCompleted, p.totalNotes)
  }

  /**
   * The effect on `[profile]`: once a profile is loaded, `stats` and the
   * achievements are computed from its counters; before that both keep
   * their current values.
   */
  function OnProfile(profile: Option<Profile>, stats: Stats, achievements: seq<Achievement>): (r: (Stats, seq<Achievement>))
    ensures profile.None? ==> r == (stats, achievements)
    ensures profile.Some? ==> r.0 == StatsOf(profile.value) && r.1 == GenerateAchievements(r.0)
  {
    match profile
    case None => (stats, achievements)
    case Some(p) => (StatsOf(p), GenerateAchievements(StatsOf(p)))
  }

  /** A new account (all counters zero) has every achievement locked. */
  lemma FreshProfileAllLocked(p: Profile)
    requires p.dailyStreak == 0 && p.totalLessonsCompleted == 0 && p.totalNotes == 0
    ensures forall i :: 0 <= i < 5 ==> !OnProfile(Some(p), InitialStats, []).1[i].unlocked
  {
  }
}
