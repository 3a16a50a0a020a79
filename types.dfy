/** The records of types.ts, and the Option/Result wrappers used for the
    source's `null`/`undefined` values and thrown errors. */
module Types {

  datatype Option<+T> = None | Some(value: T)

  datatype Result<+T, +E> = Ok(value: T) | Err(error: E)

  /** One recorded answer of a quiz attempt. */
  datatype Answer = Answer(questionId: string, selectedIndex: int)

  datatype Question = Question(
    id: string,
    text: string,
    options: seq<string>,
    correctAnswerIndex: int,
    explanation: string)

  datatype Flashcard = Flashcard(id: string, front: string, back: string)

  datatype Quiz = Quiz(
    id: string,
    title: string,
    topic: string,
    questions: seq<Question>,
    flashcards: seq<Flashcard>,
    createdAt: int)

  /** A completed attempt; `completedAt` is an epoch time in milliseconds
      and doubles as the attempt's identity. */
  datatype QuizResult = QuizResult(
    quizId: string,
    quizTitle: string,
    score: int,
    totalQuestions: int,
    correctCount: int,
    timeSpentSeconds: int,
    completedAt: int,
    answers: seq<Answer>)

  datatype IconName = Trophy | Flame | Target | Zap | Brain | Star | Rocket | Crown | Sun

  datatype Badge = Badge(
    id: string,
    name: string,
    description: string,
    iconName: IconName,
    isLocked: bool,
    currentProgress: int,
    maxProgress: int,
    unlockedAt: Option<int>)

  datatype Category = QuizCategory | StreakCategory | ScoreCategory | TimeCategory

  datatype ColorTheme = BlueTheme | PurpleTheme | OrangeTheme | GreenTheme

  datatype Goal = Goal(
    id: string,
    title: string,
    description: string,
    current: int,
    target: int,
    unit: string,
    category: Category,
    colorTheme: ColorTheme,
    deadline: Option<int>)

  datatype UserStats = UserStats(
    totalQuizzes: int,
    averageScore: int,
    studyStreak: int,
    totalQuestionsAnswered: int,
    xp: int,
    level: int)

  datatype UserProfile = UserProfile(id: string, name: string, email: string, title: string)

  datatype Difficulty = Easy | Medium | Hard

  datatype ThemeColor = Indigo | Blue | Purple | Rose | Orange | Teal

  datatype DashboardLayout = Grid | List

  datatype Theme = Light | Dark
}
