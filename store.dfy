/** The application store of store/store.ts: one state object whose actions
    replace its lists, plus the statistics it derives from the quiz history.
    Calls to the hosted backend are not executed; each action that would
    issue one appends a description of it to the ghost `outbox`. */
module Store {
  import opened Types
  import opened Seqs
  import opened JsMath

  // ---------------------------------------------------------------------
  // Derived statistics (the fold over `history`)
  // ---------------------------------------------------------------------

  const XpPerQuestion: int := 10
  const XpPerLevel: int := 1000

  function ScoreOf(r: QuizResult): int { r.score }

  function QuestionsOf(r: QuizResult): int { r.totalQuestions }

  /** Sum of the scores of all attempts. */
  function ScoreTotal(h: seq<QuizResult>): int { SumOf(ScoreOf, h) }

  /** Sum of the question counts of all attempts. */
  function QuestionTotal(h: seq<QuizResult>): int { SumOf(QuestionsOf, h) }

  /** The rounded mean score, 0 for an empty history. */
  function AverageScore(h: seq<QuizResult>): int
  {
    if |h| > 0 then RoundDiv(ScoreTotal(h), |h|) else 0
  }

  function Xp(h: seq<QuizResult>): int
  {
    QuestionTotal(h) * XpPerQuestion + ScoreTotal(h)
  }

  /** `Math.floor(xp / 1000) + 1`; Dafny's division floors for a positive divisor. */
  function LevelOf(xp: int): int { xp / XpPerLevel + 1 }

  /** The placeholder streak: 1 as soon as there is any history. */
  function StreakOf(h: seq<QuizResult>): int { if |h| > 0 then 1 else 0 }

  function ComputeStats(h: seq<QuizResult>): UserStats
  {
    UserStats(
      totalQuizzes := |h|,
      averageScore := AverageScore(h),
      studyStreak := StreakOf(h),
      totalQuestionsAnswered := QuestionTotal(h),
      xp := Xp(h),
      level := LevelOf(Xp(h)))
  }

  /** The statistics the store starts with are those of the empty history. */
  lemma InitialStatsAreEmptyHistoryStats()
    ensures ComputeStats([]) == UserStats(0, 0, 0, 0, 0, 1)
  {
  }

  /** For non-negative XP the level is at least 1, and the XP splits into
      whole levels plus the remainder shown on the level bar. */
  lemma LevelDecomposition(xp: int)
    requires xp >= 0
    ensures LevelOf(xp) >= 1
    ensures xp == (LevelOf(xp) - 1) * XpPerLevel + xp % XpPerLevel
    ensures 0 <= xp % XpPerLevel < XpPerLevel
  {
  }

  /** More XP never lowers the level. */
  lemma LevelMonotone(xp1: int, xp2: int)
    requires xp1 <= xp2
    ensures LevelOf(xp1) <= LevelOf(xp2)
  {
  }

  /** The statistics do not depend on the order of the history. */
  lemma StatsOrderIndependent(h1: seq<QuizResult>, h2: seq<QuizResult>)
    requires multiset(h1) == multiset(h2)
    ensures ComputeStats(h1) == ComputeStats(h2)
  {
    assert |h1| == |multiset(h1)| == |multiset(h2)| == |h2|;
    SumOfPermutation(ScoreOf, h1, h2);
    SumOfPermutation(QuestionsOf, h1, h2);
  }

  /** When every score is a percentage, so is the average. */
  lemma AverageInRange(h: seq<QuizResult>)
    requires forall i :: 0 <= i < |h| ==> 0 <= h[i].score <= 100
    ensures 0 <= AverageScore(h) <= 100
  {
    if |h| > 0 {
      SumOfNonNegative(ScoreOf, h);
      SumOfBounded(ScoreOf, h, 100);
      RoundDivBounds(ScoreTotal(h), |h|, 100);
    }
  }

  /** With non-negative scores and question counts, XP is non-negative and
      the level at least 1. */
  lemma XpNonNegative(h: seq<QuizResult>)
    requires forall i :: 0 <= i < |h| ==> h[i].score >= 0 && h[i].totalQuestions >= 0
    ensures Xp(h) >= 0 && ComputeStats(h).level >= 1
  {
    SumOfNonNegative(ScoreOf, h);
    SumOfNonNegative(QuestionsOf, h);
  }

  /** Prepending one attempt adds exactly its contribution to every sum. */
  lemma StatsAfterPrepend(r: QuizResult, h: seq<QuizResult>)
    ensures ComputeStats([r] + h).totalQuizzes == |h| + 1
    ensures ScoreTotal([r] + h) == r.score + ScoreTotal(h)
    ensures ComputeStats([r] + h).totalQuestionsAnswered == r.totalQuestions + QuestionTotal(h)
    ensures ComputeStats([r] + h).xp == Xp(h) + XpPerQuestion * r.totalQuestions + r.score
    ensures ComputeStats([r] + h).studyStreak == 1
  {
    assert ([r] + h)[1..] == h;
  }

  /** The worked example: scores 80 and 60 over 10 and 5 questions. */
  lemma StatsExample(a: QuizResult, b: QuizResult)
    requires a.score == 80 && a.totalQuestions == 10
    requires b.score == 60 && b.totalQuestions == 5
    ensures ComputeStats([a, b]) == UserStats(2, 70, 1, 15, 290, 1)
  {
    assert [a, b][1..] == [b] && [b][1..] == [];
    assert SumOf(ScoreOf, [b]) == 60 && SumOf(QuestionsOf, [b]) == 5;
    assert ScoreTotal([a, b]) == 140 && QuestionTotal([a, b]) == 15;
    RoundDivExact(70, 2);
  }

  // ---------------------------------------------------------------------
  // The badge catalog
  // ---------------------------------------------------------------------

  const InitialBadges: seq<Badge> := [
    Badge("b-1", "Early Bird", "Complete a quiz before 8 AM", Sun, true, 0, 1, None),
    Badge("b-2", "Quiz Master", "Score 100% on 3 quizzes", Crown, true, 0, 3, None),
    Badge("b-3", "Streak Fire", "Reach a 7-day study streak", Flame, true, 0, 7, None),
    Badge("b-4", "Knowledge Seeker", "Create 5 custom quizzes", Brain, true, 0, 5, None),
    Badge("b-5", "Speedster", "Finish a quiz in under 60 seconds", Zap, true, 0, 1, None),
    Badge("b-6", "Perfectionist", "Answer 50 questions correctly", Target, true, 0, 50, None),
    Badge("b-7", "Explorer", "Try quizzes in 3 different topics", Rocket, true, 0, 3, None),
    Badge("b-8", "Scholar", "Study for 10 hours total", Trophy, true, 0, 10, None)
  ]

  /** A badge list is the catalog with only lock state and unlock time changed. */
  ghost predicate CatalogShaped(badges: seq<Badge>)
  {
    && |badges| == |InitialBadges|
    && forall i :: 0 <= i < |badges| ==>
         badges[i] == InitialBadges[i].(isLocked := badges[i].isLocked, unlockedAt := badges[i].unlockedAt)
  }

  /** The catalog has eight locked badges, all with a positive goal. */
  lemma CatalogFacts()
    ensures |InitialBadges| == 8
    ensures forall i :: 0 <= i < |InitialBadges| ==> InitialBadges[i].isLocked && InitialBadges[i].unlockedAt == None
    ensures CatalogShaped(InitialBadges)
  {
  }

  /** Every list of catalog shape has positive `maxProgress` throughout. */
  lemma CatalogShapedHasPositiveGoals(badges: seq<Badge>)
    requires CatalogShaped(badges)
    ensures forall i :: 0 <= i < |badges| ==> badges[i].maxProgress > 0
  {
    forall i | 0 <= i < |badges| ensures badges[i].maxProgress > 0 {
      assert badges[i].maxProgress == InitialBadges[i].maxProgress;
    }
  }

  /** `badges.map(b => b.id === badgeId ? {...b, isLocked: false, unlockedAt: now} : b)` */
  function UnlockIn(badges: seq<Badge>, badgeId: string, now: int): seq<Badge>
  {
    MapSeq((b: Badge) => if b.id == badgeId then b.(isLocked := false, unlockedAt := Some(now)) else b, badges)
  }

  /** Unlocking touches only the badges with that id, never re-locks one,
      and keeps the list's length, order and catalog shape. */
  lemma UnlockInProperties(badges: seq<Badge>, badgeId: string, now: int)
    ensures |UnlockIn(badges, badgeId, now)| == |badges|
    ensures forall i :: 0 <= i < |badges| && badges[i].id == badgeId ==>
              !UnlockIn(badges, badgeId, now)[i].isLocked && UnlockIn(badges, badgeId, now)[i].unlockedAt == Some(now)
    ensures forall i :: 0 <= i < |badges| && badges[i].id != badgeId ==> UnlockIn(badges, badgeId, now)[i] == badges[i]
    ensures forall i :: 0 <= i < |badges| && !badges[i].isLocked ==> !UnlockIn(badges, badgeId, now)[i].isLocked
    ensures CatalogShaped(badges) ==> CatalogShaped(UnlockIn(badges, badgeId, now))
  {
  }

  // ---------------------------------------------------------------------
  // Pure list updates used by the actions
  // ---------------------------------------------------------------------

  /** `history.filter(h => h.completedAt !== completedAt)` */
  function WithoutAttempt(h: seq<QuizResult>, completedAt: int): seq<QuizResult>
  {
    Filter((r: QuizResult) => r.completedAt != completedAt, h)
  }

  /** Removal drops every attempt with that timestamp, keeps every other one
      in order, and is the identity when none matches. */
  lemma WithoutAttemptProperties(h: seq<QuizResult>, completedAt: int)
    ensures forall i :: 0 <= i < |WithoutAttempt(h, completedAt)| ==> WithoutAttempt(h, completedAt)[i].completedAt != completedAt
    ensures forall i :: 0 <= i < |h| && h[i].completedAt != completedAt ==> h[i] in WithoutAttempt(h, completedAt)
    ensures |WithoutAttempt(h, completedAt)| + |Filter((r: QuizResult) => r.completedAt == completedAt, h)| == |h|
    ensures (forall i :: 0 <= i < |h| ==> h[i].completedAt != completedAt) ==> WithoutAttempt(h, completedAt) == h
    ensures WithoutAttempt(WithoutAttempt(h, completedAt), completedAt) == WithoutAttempt(h, completedAt)
  {
    var keep := (r: QuizResult) => r.completedAt != completedAt;
    var drop := (r: QuizResult) => r.completedAt == completedAt;
    FilterPartition(keep, drop, h);
    FilterIdempotent(keep, h);
    if forall i :: 0 <= i < |h| ==> h[i].completedAt != completedAt {
      FilterAllKept(keep, h);
    }
  }

  /** Removal from a concatenation is the concatenation of removals: the
      surviving entries keep their relative order. */
  lemma WithoutAttemptKeepsOrder(a: seq<QuizResult>, b: seq<QuizResult>, completedAt: int)
    ensures WithoutAttempt(a + b, completedAt) == WithoutAttempt(a, completedAt) + WithoutAttempt(b, completedAt)
  {
    FilterAppend((r: QuizResult) => r.completedAt != completedAt, a, b);
  }

  /** `goals.filter(g => g.id !== goalId)` */
  function WithoutGoal(goals: seq<Goal>, goalId: string): seq<Goal>
  {
    Filter((g: Goal) => g.id != goalId, goals)
  }

  lemma WithoutGoalProperties(goals: seq<Goal>, goalId: string)
    ensures forall i :: 0 <= i < |WithoutGoal(goals, goalId)| ==> WithoutGoal(goals, goalId)[i].id != goalId
    ensures forall i :: 0 <= i < |goals| && goals[i].id != goalId ==> goals[i] in WithoutGoal(goals, goalId)
    ensures (forall i :: 0 <= i < |goals| ==> goals[i].id != goalId) ==> WithoutGoal(goals, goalId) == goals
  {
    if forall i :: 0 <= i < |goals| ==> goals[i].id != goalId {
      FilterAllKept((g: Goal) => g.id != goalId, goals);
    }
  }

  /** `goals.find(g => g.id === goalId)`: the first goal with that id. */
  function FindGoal(goals: seq<Goal>, goalId: string): (r: Option<Goal>)
    ensures r.None? <==> forall i :: 0 <= i < |goals| ==> goals[i].id != goalId
    ensures r.Some? ==> exists i :: 0 <= i < |goals| && goals[i] == r.value && r.value.id == goalId &&
                          forall j :: 0 <= j < i ==> goals[j].id != goalId
  {
    if goals == [] then None
    else if goals[0].id == goalId then Some(goals[0])
    else
      var r := FindGoal(goals[1..], goalId);
      assert r.Some? ==> exists i :: 0 <= i < |goals[1..]| && goals[1..][i] == r.value && r.value.id == goalId &&
                          forall j :: 0 <= j < i ==> goals[1..][j].id != goalId;
      assert r.Some? ==> exists i :: 1 <= i < |goals| && goals[i] == r.value && r.value.id == goalId &&
                          forall j :: 1 <= j < i ==> goals[j].id != goalId;
      r
  }

  /** `Math.min(goal.target, goal.current + increment)`: capped above only. */
  function ProgressAfter(g: Goal, increment: int): int
  {
    Min(g.target, g.current + increment)
  }

  /** The new goal list of `updateGoalProgress`: the value computed from the
      first goal with the id is written into every goal with that id. */
  function GoalsAfterProgress(goals: seq<Goal>, goalId: string, increment: int): seq<Goal>
  {
    match FindGoal(goals, goalId)
    case None => goals
    case Some(g) =>
      var v := ProgressAfter(g, increment);
      MapSeq((x: Goal) => if x.id == goalId then x.(current := v) else x, goals)
  }

  /** An unknown id changes nothing; otherwise only the matching goals
      change, and only in `current`, which never exceeds the target of the
      first match. */
  lemma GoalsAfterProgressProperties(goals: seq<Goal>, goalId: string, increment: int)
    ensures |GoalsAfterProgress(goals, goalId, increment)| == |goals|
    ensures FindGoal(goals, goalId).None? ==> GoalsAfterProgress(goals, goalId, increment) == goals
    ensures forall i :: 0 <= i < |goals| && goals[i].id != goalId ==> GoalsAfterProgress(goals, goalId, increment)[i] == goals[i]
    ensures forall i :: 0 <= i < |goals| && goals[i].id == goalId ==>
              && GoalsAfterProgress(goals, goalId, increment)[i] == goals[i].(current := GoalsAfterProgress(goals, goalId, increment)[i].current)
              && GoalsAfterProgress(goals, goalId, increment)[i].current == ProgressAfter(FindGoal(goals, goalId).value, increment)
              && GoalsAfterProgress(goals, goalId, increment)[i].current <= FindGoal(goals, goalId).value.target
  {
    var found := FindGoal(goals, goalId);
    if found.Some? {
      var v := ProgressAfter(found.value, increment);
      var r := MapSeq((x: Goal) => if x.id == goalId then x.(current := v) else x, goals);
      assert GoalsAfterProgress(goals, goalId, increment) == r;
      forall i | 0 <= i < |goals| && goals[i].id == goalId
        ensures r[i] == goals[i].(current := v)
      {
      }
    }
  }

  ghost predicate UniqueGoalIds(goals: seq<Goal>)
  {
    forall i, j :: 0 <= i < j < |goals| ==> goals[i].id != goals[j].id
  }

  ghost predicate GoalsInRange(goals: seq<Goal>)
  {
    forall i :: 0 <= i < |goals| ==> 0 <= goals[i].current <= goals[i].target
  }

  /** For a non-negative increment (the only one the UI issues), progress
      keeps every goal within [0, target] when ids are unique. */
  lemma ProgressKeepsGoalsInRange(goals: seq<Goal>, goalId: string, increment: int)
    requires UniqueGoalIds(goals) && GoalsInRange(goals) && increment >= 0
    ensures GoalsInRange(GoalsAfterProgress(goals, goalId, increment))
  {
    var r := GoalsAfterProgress(goals, goalId, increment);
    GoalsAfterProgressProperties(goals, goalId, increment);
    forall i | 0 <= i < |r| ensures 0 <= r[i].current <= r[i].target {
      if goals[i].id == goalId {
        var first := FindGoal(goals, goalId).value;
        var k :| 0 <= k < |goals| && goals[k] == first && first.id == goalId;
        assert k == i;
      }
    }
  }

  /** There is no lower bound: a negative increment drives `current` below 0. */
  lemma NegativeIncrementGoesBelowZero(g: Goal)
    requires g.current == 0 && g.target == 10
    ensures GoalsAfterProgress([g], g.id, -1)[0].current == -1
  {
    GoalsAfterProgressProperties([g], g.id, -1);
  }

  // ---------------------------------------------------------------------
  // The store object
  // ---------------------------------------------------------------------

  /** What `session.user` carries; an absent e-mail or name is "". */
  datatype SessionUser = SessionUser(id: string, email: string, metadataName: string)

  /** The outcome of reading the profile row: a row (absent columns are ""),
      no row, or an exception out of the request. */
  datatype ProfileFetch = ProfileRow(name: string, title: string) | NoProfile | ProfileFetchThrew

  /** The fields of `Partial<UserProfile>` that an update supplies. */
  datatype ProfileUpdate = ProfileUpdate(
    id: Option<string>, name: Option<string>, email: Option<string>, title: Option<string>)

  /** The reply to the three reads of `fetchUserData`; a list is None when
      its query returned no data. */
  datatype FetchOutcome =
    | Fetched(quizzes: Option<seq<Quiz>>, results: Option<seq<QuizResult>>, goals: Option<seq<Goal>>)
    | FetchThrew

  /** A request to the hosted backend, as the store would issue it. */
  datatype RemoteCall =
    | SelectProfile(userId: string)
    | RequestUserData
    | UpdateProfileRow(userId: string, name: Option<string>, title: Option<string>)
    | SignOut
    | InsertResult(userId: string, result: QuizResult)
    | InsertQuiz(userId: string, quiz: Quiz)
    | InsertGoal(userId: string, goal: Goal)
    | DeleteGoal(goalId: string)
    | UpdateGoal(goalId: string, current: int)

  /** `a || b` on strings: the empty string is falsy. */
  function OrElse(a: string, b: string): string { if a != "" then a else b }

  /** The profile `handleSession` builds from the session and profile row. */
  function ProfileFromSession(u: SessionUser, p: ProfileFetch): (r: UserProfile)
    ensures r.id == u.id && r.email == u.email
    ensures r.name != "" && r.title != ""
    ensures p.ProfileRow? && p.name != "" ==> r.name == p.name
    ensures p.ProfileRow? && p.title != "" ==> r.title == p.title
    ensures (!p.ProfileRow? || p.name == "") && u.metadataName != "" ==> r.name == u.metadataName
    ensures (!p.ProfileRow? || p.name == "") && u.metadataName == "" ==> r.name == "Student"
    ensures (!p.ProfileRow? || p.title == "") ==> r.title == "Student"
  {
    var rowName := if p.ProfileRow? then p.name else "";
    var rowTitle := if p.ProfileRow? then p.title else "";
    UserProfile(u.id, OrElse(rowName, OrElse(u.metadataName, "Student")), u.email, OrElse(rowTitle, "Student"))
  }

  /** `{...user, ...updates}` */
  function ApplyUpdate(u: UserProfile, up: ProfileUpdate): (r: UserProfile)
    ensures r.id == (if up.id.Some? then up.id.value else u.id)
    ensures r.name == (if up.name.Some? then up.name.value else u.name)
    ensures r.email == (if up.email.Some? then up.email.value else u.email)
    ensures r.title == (if up.title.Some? then up.title.value else u.title)
  {
    UserProfile(
      if up.id.Some? then up.id.value else u.id,
      if up.name.Some? then up.name.value else u.name,
      if up.email.Some? then up.email.value else u.email,
      if up.title.Some? then up.title.value else u.title)
  }

  function FlipTheme(t: Theme): Theme { if t == Light then Dark else Light }

  function FlipLayout(l: DashboardLayout): DashboardLayout { if l == Grid then List else Grid }

  /** Each toggle is an involution, so toggling twice restores the field. */
  lemma TogglesAreInvolutions(t: Theme, l: DashboardLayout, m: bool)
    ensures FlipTheme(FlipTheme(t)) == t && FlipTheme(t) != t
    ensures FlipLayout(FlipLayout(l)) == l && FlipLayout(l) != l
    ensures !!m == m
  {
  }

  class AppStore {
    var theme: Theme
    var themeColor: ThemeColor
    var dashboardLayout: DashboardLayout
    var reduceMotion: bool

    var user: Option<UserProfile>
    var isAuthenticated: bool
    var isLoading: bool

    var history: seq<QuizResult>
    var savedQuizzes: seq<Quiz>
    var goals: seq<Goal>
    var badges: seq<Badge>
    var userStats: UserStats

    /** Requests issued to the backend, oldest first. */
    ghost var outbox: seq<RemoteCall>

    /** The badge list is always the catalog up to lock state. */
    ghost predicate Valid()
      reads this`badges
    {
      CatalogShaped(badges)
    }

    constructor ()
      ensures Valid()
      ensures theme == Light && themeColor == Indigo && dashboardLayout == Grid && !reduceMotion
      ensures user == None && !isAuthenticated && isLoading
      ensures history == [] && savedQuizzes == [] && goals == []
      ensures badges == InitialBadges
      ensures userStats == UserStats(0, 0, 0, 0, 0, 1)
      ensures outbox == []
    {
      theme, themeColor, dashboardLayout, reduceMotion := Light, Indigo, Grid, false;
      user, isAuthenticated, isLoading := None, false, true;
      history, savedQuizzes, goals := [], [], [];
      badges := InitialBadges;
      userStats := UserStats(0, 0, 0, 0, 0, 1);
      outbox := [];
    }

    method ToggleTheme()
      modifies this`theme
      ensures theme == FlipTheme(old(theme))
    {
      theme := if theme == Light then Dark else Light;
    }

    method SetThemeColor(color: ThemeColor)
      modifies this`themeColor
      ensures themeColor == color
    {
      themeColor := color;
    }

    method ToggleDashboardLayout()
      modifies this`dashboardLayout
      ensures dashboardLayout == FlipLayout(old(dashboardLayout))
    {
      dashboardLayout := if dashboardLayout == Grid then List else Grid;
    }

    method ToggleReduceMotion()
      modifies this`reduceMotion
      ensures reduceMotion == !old(reduceMotion)
    {
      reduceMotion := !reduceMotion;
    }

    /** `handleSession`: a signed-in session reads the profile, sets the user
        and requests the user's data; no session clears every user list. */
    method HandleSession(session: Option<SessionUser>, profile: ProfileFetch)
      modifies this`isAuthenticated, this`user, this`isLoading, this`history,
               this`savedQuizzes, this`goals, this`outbox
      ensures !isLoading
      ensures session.None? ==>
                && !isAuthenticated && user.None?
                && history == [] && savedQuizzes == [] && goals == []
                && outbox == old(outbox)
      ensures session.Some? ==>
                && isAuthenticated
                && history == old(history) && savedQuizzes == old(savedQuizzes) && goals == old(goals)
      ensures session.Some? && profile.ProfileFetchThrew? ==>
                user == old(user) && outbox == old(outbox) + [SelectProfile(session.value.id)]
      ensures session.Some? && !profile.ProfileFetchThrew? ==>
                && user == Some(ProfileFromSession(session.value, profile))
                && outbox == old(outbox) + [SelectProfile(session.value.id), RequestUserData]
    {
      if session.Some? {
        var u := session.value;
        outbox := outbox + [SelectProfile(u.id)];
        if profile.ProfileFetchThrew? {
          isAuthenticated, isLoading := true, false;
        } else {
          isAuthenticated := true;
          user := Some(ProfileFromSession(u, profile));
          isLoading := false;
          outbox := outbox + [RequestUserData];
        }
      } else {
        isAuthenticated, user, isLoading := false, None, false;
        history, savedQuizzes, goals := [], [], [];
      }
    }

    method Login(u: UserProfile)
      modifies this`isAuthenticated, this`user
      ensures isAuthenticated && user == Some(u)
    {
      isAuthenticated, user := true, Some(u);
    }

    /** `logout`: signs out, then clears the user and every user list. The
        statistics and the badges are left as they were. */
    method Logout()
      modifies this`isAuthenticated, this`user, this`history, this`savedQuizzes, this`goals, this`outbox
      ensures !isAuthenticated && user.None?
      ensures history == [] && savedQuizzes == [] && goals == []
      ensures outbox == old(outbox) + [SignOut]
    {
      outbox := outbox + [SignOut];
      isAuthenticated, user := false, None;
      history, savedQuizzes, goals := [], [], [];
    }

    /** `updateUser`: without a user, nothing happens. */
    method UpdateUser(updates: ProfileUpdate)
      modifies this`user, this`outbox
      ensures old(user).None? ==> user.None? && outbox == old(outbox)
      ensures old(user).Some? ==>
                && user == Some(ApplyUpdate(old(user).value, updates))
                && outbox == old(outbox) + [UpdateProfileRow(old(user).value.id, updates.name, updates.title)]
    {
      if user.None? {
        return;
      }
      var u := user.value;
      user := Some(ApplyUpdate(u, updates));
      outbox := outbox + [UpdateProfileRow(u.id, updates.name, updates.title)];
    }

    /** The completion of `fetchUserData`: the fetched lists replace the
        local ones (a missing list becomes empty) and every statistic,
        streak included, is recomputed; an exception changes nothing. */
    method FetchUserData(outcome: FetchOutcome)
      modifies this`history, this`savedQuizzes, this`goals, this`userStats
      ensures user.None? || outcome.FetchThrew? ==>
                history == old(history) && savedQuizzes == old(savedQuizzes) &&
                goals == old(goals) && userStats == old(userStats)
      ensures user.Some? && outcome.Fetched? ==>
                && history == (if outcome.results.Some? then outcome.results.value else [])
                && savedQuizzes == (if outcome.quizzes.Some? then outcome.quizzes.value else [])
                && goals == (if outcome.goals.Some? then outcome.goals.value else [])
                && userStats == ComputeStats(history)
    {
      if user.None? || outcome.FetchThrew? {
        return;
      }
      history := if outcome.results.Some? then outcome.results.value else [];
      savedQuizzes := if outcome.quizzes.Some? then outcome.quizzes.value else [];
      goals := if outcome.goals.Some? then outcome.goals.value else [];
      userStats := ComputeStats(history);
    }

    /** `addResult`: with a user, the result is put first in the history,
        every statistic except the streak is recomputed, the row is inserted
        and a re-sync requested. */
    method AddResult(r: QuizResult)
      modifies this`history, this`userStats, this`outbox
      ensures user.None? ==>
                history == old(history) && userStats == old(userStats) && outbox == old(outbox)
      ensures user.Some? ==>
                && history == [r] + old(history)
                && userStats == ComputeStats(history).(studyStreak := old(userStats).studyStreak)
                && outbox == old(outbox) + [InsertResult(user.value.id, r), RequestUserData]
    {
      if user.None? {
        return;
      }
      var newHistory := [r] + history;
      var s := ComputeStats(newHistory);
      history := newHistory;
      userStats := UserStats(s.totalQuizzes, s.averageScore, userStats.studyStreak,
                             s.totalQuestionsAnswered, s.xp, s.level);
      outbox := outbox + [InsertResult(user.value.id, r), RequestUserData];
    }

    /** `removeResult`: local only, with no user check; the statistics are
        not recomputed. */
    method RemoveResult(completedAt: int)
      modifies this`history
      ensures history == WithoutAttempt(old(history), completedAt)
    {
      history := Filter((h: QuizResult) => h.completedAt != completedAt, history);
    }

    method SaveQuiz(quiz: Quiz)
      modifies this`savedQuizzes, this`outbox
      ensures user.None? ==> savedQuizzes == old(savedQuizzes) && outbox == old(outbox)
      ensures user.Some? ==>
                && savedQuizzes == [quiz] + old(savedQuizzes)
                && outbox == old(outbox) + [InsertQuiz(user.value.id, quiz), RequestUserData]
    {
      if user.None? {
        return;
      }
      savedQuizzes := [quiz] + savedQuizzes;
      outbox := outbox + [InsertQuiz(user.value.id, quiz), RequestUserData];
    }

    method AddGoal(goal: Goal)
      modifies this`goals, this`outbox
      ensures user.None? ==> goals == old(goals) && outbox == old(outbox)
      ensures user.Some? ==>
                && goals == old(goals) + [goal]
                && outbox == old(outbox) + [InsertGoal(user.value.id, goal)]
    {
      if user.None? {
        return;
      }
      goals := goals + [goal];
      outbox := outbox + [InsertGoal(user.value.id, goal)];
    }

    /** `removeGoal`: no user check; the delete is issued in every case. */
    method RemoveGoal(goalId: string)
      modifies this`goals, this`outbox
      ensures goals == WithoutGoal(old(goals), goalId)
      ensures outbox == old(outbox) + [DeleteGoal(goalId)]
    {
      goals := Filter((g: Goal) => g.id != goalId, goals);
      outbox := outbox + [DeleteGoal(goalId)];
    }

    /** `updateGoalProgress`: no user check; an unknown id returns early. */
    method UpdateGoalProgress(goalId: string, increment: int)
      modifies this`goals, this`outbox
      ensures goals == GoalsAfterProgress(old(goals), goalId, increment)
      ensures FindGoal(old(goals), goalId).None? ==> outbox == old(outbox)
      ensures FindGoal(old(goals), goalId).Some? ==>
                outbox == old(outbox) + [UpdateGoal(goalId, ProgressAfter(FindGoal(old(goals), goalId).value, increment))]
    {
      var before := goals;
      var found := FindGoal(before, goalId);
      if found.None? {
        return;
      }
      var newCurrent := Min(found.value.target, found.value.current + increment);
      var updated := MapSeq((g: Goal) => if g.id == goalId then g.(current := newCurrent) else g, before);
      assert updated == GoalsAfterProgress(before, goalId, increment);
      goals := updated;
      outbox := outbox + [UpdateGoal(goalId, newCurrent)];
    }

    /** `unlockBadge`: local only, no user check; `now` is `Date.now()`. */
    method UnlockBadge(badgeId: string, now: int)
      requires Valid()
      modifies this`badges
      ensures Valid()
      ensures badges == UnlockIn(old(badges), badgeId, now)
      ensures forall i :: 0 <= i < |badges| && !old(badges)[i].isLocked ==> !badges[i].isLocked
    {
      UnlockInProperties(badges, badgeId, now);
      badges := MapSeq((b: Badge) => if b.id == badgeId then b.(isLocked := false, unlockedAt := Some(now)) else b, badges);
    }
  }
}
