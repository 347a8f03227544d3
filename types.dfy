/** The records of the learning platform: users, courses, lessons and
    enrollments (src/types/index.ts). Fields that only feed rendering are kept
    so that records keep the shape of the TypeScript interfaces; nested records that no modelled
    operation reads (instructor, lesson resources, quizzes, assignments) are
    not part of this model. */
module Types {
  import opened Seqs

  datatype Role = Student | Instructor | Admin

  /** A user's display preferences; `theme` is "light" or "dark". */
  datatype Preferences = Preferences(theme: string, language: string, notifications: bool)

  datatype User = User(
    id: string,
    name: string,
    email: string,
    role: Role,
    avatar: Option<string>,
    bio: Option<string>,
    emailVerified: bool,
    twoFactorEnabled: bool,
    createdAt: string,
    preferences: Preferences)

  datatype Level = Beginner | Intermediate | Advanced

  /** The string stored in `course.level`. */
  function LevelName(l: Level): string {
    match l
    case Beginner => "Beginner"
    case Intermediate => "Intermediate"
    case Advanced => "Advanced"
  }

  datatype Lesson = Lesson(
    id: string,
    title: string,
    description: string,
    videoUrl: Option<string>,
    duration: int,
    order: int,
    isFree: bool)

  /** A catalog entry. `createdAt` is the time value (milliseconds since the
      epoch) that `new Date(createdAt).getTime()` yields for the stored ISO
      string; prices and ratings are exact reals. */
  datatype Course = Course(
    id: string,
    title: string,
    description: string,
    shortDescription: string,
    imageUrl: string,
    level: Level,
    duration: string,
    category: string,
    price: real,
    originalPrice: Option<real>,
    isFree: bool,
    instructorId: string,
    rating: real,
    reviewCount: int,
    enrollmentCount: int,
    lessons: seq<Lesson>,
    requirements: seq<string>,
    whatYouWillLearn: seq<string>,
    tags: seq<string>,
    createdAt: int,
    updatedAt: string,
    isPublished: bool,
    language: string,
    certificate: bool)

  /** The JavaScript number a progress percentage can be: a finite value, or
      `Infinity`, which `(n / 0) * 100` yields for a course with no lessons. */
  datatype Progress = Percent(value: real) | Infinite

  datatype Enrollment = Enrollment(
    id: string,
    userId: string,
    courseId: string,
    enrolledAt: string,
    progress: Progress,
    lastAccessedLessonId: Option<string>,
    completedLessons: seq<string>,
    certificateIssued: bool)
}
