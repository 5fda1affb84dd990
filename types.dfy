/** The app's records and enumerations. Instants are local-time milliseconds
    since the epoch (`int`); counts and durations are `nat`. */
module Types {

  datatype ExerciseCategory = Masajes | Frente | Ojos | Mejillas | Boca

  datatype Exercise = Exercise(
    id: string,
    name: string,
    category: ExerciseCategory,
    description: string,
    instructions: seq<string>,
    duration: nat,   // seconds per repetition
    reps: nat,
    imageUrl: string)

  datatype ArticleCategory = PrimerosPasos | CuidadosDiarios | Tratamientos | PreguntasFrecuentes | Implementos

  datatype Article = Article(
    id: string,
    title: string,
    category: ArticleCategory,
    summary: string,
    content: string,
    imageUrl: string)

  /** A progress photo. Its `id` is the ISO rendering of an instant; the model
      keeps that instant, since the rendering is injective. */
  datatype ProgressPhoto = ProgressPhoto(id: int, date: int, imageUrl: string, tags: seq<string>)

  datatype CompletedExercise = CompletedExercise(date: int, exerciseId: string)

  datatype ZenMode = Breathing | Meditation

  datatype ZenActivity = ZenActivity(id: string, mode: ZenMode, title: string, duration: nat, description: string)

  /** One reminder channel; `time` is the "HH:MM" text of a time input. */
  datatype Reminder = Reminder(enabled: bool, time: string)

  datatype ReminderSettings = ReminderSettings(exercise: Reminder, zen: Reminder)

  /** The two keys of `ReminderSettings`, which are also the scheduler ids. */
  datatype Channel = ExerciseChannel | ZenChannel

  function ChannelId(ch: Channel): string {
    match ch
    case ExerciseChannel => "exercise"
    case ZenChannel => "zen"
  }

  function Other(ch: Channel): (o: Channel)
    ensures o != ch
  {
    match ch
    case ExerciseChannel => ZenChannel
    case ZenChannel => ExerciseChannel
  }

  /** `reminders[type]` */
  function Get(s: ReminderSettings, ch: Channel): Reminder {
    match ch
    case ExerciseChannel => s.exercise
    case ZenChannel => s.zen
  }

  datatype View =
    | DashboardView
    | ExercisesView
    | ExerciseDetailView
    | EncyclopediaView
    | ArticleDetailView
    | ZenView
    | ProgressView
    | RemindersView

  /** The string literal each view is in the source's `View` union. */
  function ViewName(v: View): string {
    match v
    case DashboardView => "DASHBOARD"
    case ExercisesView => "EXERCISES"
    case ExerciseDetailView => "EXERCISE_DETAIL"
    case EncyclopediaView => "ENCYCLOPEDIA"
    case ArticleDetailView => "ARTICLE_DETAIL"
    case ZenView => "ZEN"
    case ProgressView => "PROGRESS"
    case RemindersView => "REMINDERS"
  }
}
