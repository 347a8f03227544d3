# LearnX core, modelled in Dafny

LearnX is a single-page learning platform written in TypeScript with React and
zustand. This project models the logic behind its screens:

- the three stores:
  - the course and enrollment store (catalog, enrollments, course being viewed, lesson progress);
  - the session store (signed-in user and its copy in browser storage);
  - the theme store (theme, its stored copy and the document's `dark` class);
- the catalog page's search, selectors, sort and "Clear Filters" reset;
- the dashboard's derived lists and figures;
- the sign-in form's checks and what `handleSubmit` does with their outcome;
- the toast list and its id counter;
- the progress bar's clamp;
- the rating widget's stars and click handler;
- the video player's state, its handlers and its time display.

Each TypeScript file with state becomes a class whose fields are the state.
- The session store, the theme store and the video player keep a `State()` snapshot. Each of their methods is proved to produce exactly a pure step function of the old snapshot, and the lemmas are stated about those step functions: persistence, round trips, idempotence and invariants.
- The course store, the catalog page's selectors, the toast list and the sign-in form have no snapshot: their methods' contracts state each field's new value. The course store's building blocks (the enrollment record, `Advance`, `UpdatedEnrollments`) are functions with lemmas of their own. The course store's and the toast list's methods keep their invariant `Valid()`.
- Computations with no state (filters, sort, derivations, validators, formatting) are functions with their properties in their contracts and in lemmas.
- The shared modules `Seqs` and `Text` model the JavaScript built-ins the core relies on:
  - `filter`, `find`, `findIndex`, `includes`;
  - ASCII `toLowerCase`;
  - number-to-string conversion and `padStart`.
- `email.split('@')[0]` is `AuthStore.LocalPart`.
- Browser storage is a map from key to stored value. Writes to it always succeed.
- Clocks are parameters: `Date.now()`, `new Date().toISOString()` and the course creation time that `new Date(createdAt).getTime()` yields.

Where the code does something a reader might not expect, the model follows the code:

- `fetchCourse(id)` looks the id up in the fixed mock list, not in the loaded `courses` (src/stores/courseStore.ts:120).
- `filterCourses` compares the price filter with lower-case `"free"`/`"paid"` (src/stores/courseStore.ts:189-190), while the catalog page offers `"Free"`/`"Paid"` (src/pages/CoursesPage.tsx:26, 54-56). The store's filter is therefore a no-op for the page's values.
- `updateProgress` divides by the course's lesson count, so a course without lessons gets progress `Infinity`. The model's `Progress` type has an `Infinite` case for it.
- `updateProgress` does not check that the lesson belongs to the course. Progress can therefore exceed 100 (`CourseStore.UnknownLessonOverflows`).
- `enrollInCourse` does not check for an existing enrollment (`CourseStore.EnrollAddsOneRecord`).
- Toggling the theme twice restores it only when it was `"light"` or `"dark"`. The theme read from storage is not checked, and any other stored text toggles to `"light"` (`ThemeStore.ToggleFromUnknownIsLight`).

## Model

| member | source | states |
|---|---|---|
| Seqs.Filter | src/stores/courseStore.ts:176-181 | `filter` keeps exactly the elements satisfying the test, each with all its copies, in their original order (a sub-list) |
| Seqs.FilterKeepsAll | src/pages/CoursesPage.tsx:48-59 | a filter whose test holds everywhere returns its input unchanged |
| Seqs.FilterAppend | src/components/ui/ToastContainer.tsx:41 | filtering a concatenation is concatenating the filtered parts |
| Seqs.FilterCongruent | src/pages/DashboardPage.tsx:29-31 | two tests that agree on every element filter alike |
| Seqs.FindIndex | src/pages/DashboardPage.tsx:350 | the index of the first element satisfying the test, or none exactly when no element does |
| Seqs.Find | src/stores/courseStore.ts:120 | `find` returns the first satisfying member, and nothing exactly when no member satisfies the test |
| Seqs.SublistNoDup | src/pages/DashboardPage.tsx:29-31 | a sub-list of a list without repeats has no repeats |
| Seqs.SublistMembers | src/components/ui/ToastContainer.tsx:41 | every element of a sub-list belongs to the list |
| Seqs.DistinctDrawnFromIsShorter | src/stores/courseStore.ts:155-161 | distinct ids drawn from a list are no more than its length |
| Text.ToLower | src/stores/courseStore.ts:178-180 | `toLowerCase` keeps the length and lowers each ASCII capital |
| Text.ToLowerIdempotent | src/pages/CoursesPage.tsx:49-51 | lowering twice is lowering once |
| Text.ContainsIffWindow | src/stores/courseStore.ts:178-180 | `includes` holds exactly when the needle occurs at some position |
| Text.ContainsEmpty | src/pages/CoursesPage.tsx:37 | the empty query occurs in every text |
| Text.NatToString | src/components/ui/ToastContainer.tsx:36 | the decimal rendering of a number: digits only, one digit exactly below 10 |
| Text.NatToStringNoLeadingZero | src/components/ui/ToastContainer.tsx:36 | only 0 is rendered with a leading zero |
| Text.ParseNatToString | src/components/ui/ToastContainer.tsx:36 | reading a decimal rendering back gives the number |
| Text.NatToStringInjective | src/components/ui/ToastContainer.tsx:36 | different numbers render differently |
| Text.IntToStringReadsBack | src/components/course/VideoPlayer.tsx:116 | a template literal of an integer: a leading '-' exactly for negatives and nowhere else, then digits that read back as the magnitude |
| Text.IntToStringInjective | src/components/course/VideoPlayer.tsx:116 | different integers render differently |
| Text.PadStart2 | src/components/course/VideoPlayer.tsx:116 | `padStart(2, '0')`: strings of length 2 or more unchanged, shorter ones zero-filled on the left to length 2 |
| ThemeStore.InitialTheme | src/stores/themeStore.ts:10 | the stored theme when one is present and non-empty, otherwise "light" |
| ThemeStore.Toggled | src/stores/themeStore.ts:13 | the toggled theme is "light" or "dark", and "dark" exactly when the old one is "light" |
| ThemeStore.Applied | src/stores/themeStore.ts:19-23 | after setting, theme, stored copy and dark class agree, other storage keys are kept, and only the theme key is added |
| ThemeStore.SetThemeIdempotent | src/stores/themeStore.ts:19-23 | setting the same theme twice is setting it once |
| ThemeStore.ToggleTwiceRestores | src/stores/themeStore.ts:12-17 | two toggles from "light" or "dark" restore the theme |
| ThemeStore.ToggleFromUnknownIsLight | src/stores/themeStore.ts:10-13 | a stored theme other than "light"/"dark" toggles to "light", then "dark" |
| ThemeStore.ThemeState.constructor | src/stores/themeStore.ts:10 | the store starts from the stored theme and leaves the document class alone |
| ThemeStore.ThemeState.ToggleTheme | src/stores/themeStore.ts:12-17 | the new state is the old one with the toggled theme applied, and it is in sync |
| ThemeStore.ThemeState.SetTheme | src/stores/themeStore.ts:19-23 | the new state is the old one with the given theme applied, and it is in sync |
| AuthStore.Restore | src/stores/authStore.ts:18-23 | the initial session: the stored user, signed in exactly when one is stored, not loading, in sync with storage |
| AuthStore.LocalPart | src/stores/authStore.ts:33 | `email.split('@')[0]`: the longest prefix without '@', followed in the email by '@' when shorter than it |
| AuthStore.LocalPartBeforeAt | src/stores/authStore.ts:33 | the local part of an address is exactly the text before its first '@' |
| AuthStore.NewUser | src/stores/authStore.ts:31-44 | the user literal of `login` and `signup`: id "1", the given name and email, a student, no avatar or bio, two-factor off, light theme, English, notifications on |
| AuthStore.SignedIn | src/stores/authStore.ts:46-47 | the user is set in memory and in storage, signed in, not loading |
| AuthStore.AfterLogin | src/stores/authStore.ts:25-51 | `login` signs in a verified student named by the local part of the email; the password plays no part |
| AuthStore.AfterSignup | src/stores/authStore.ts:54-81 | `signup` signs in an unverified student with the given name and email |
| AuthStore.AfterLogout | src/stores/authStore.ts:83-86 | `logout` drops the user from memory and storage, keeps every other key unchanged, adds none, and keeps the loading flag |
| AuthStore.Merge | src/stores/authStore.ts:91 | `{ ...user, ...updates }`: each supplied field overrides, each absent field is kept |
| AuthStore.MergeNoChanges | src/stores/authStore.ts:91 | an empty update changes nothing |
| AuthStore.MergeIdempotent | src/stores/authStore.ts:91 | applying the same update twice is applying it once |
| AuthStore.MergeThen | src/stores/authStore.ts:88-95 | two updates in a row equal one combined update in which the later values win |
| AuthStore.AfterUpdate | src/stores/authStore.ts:88-95 | `updateUser` is a no-op without a user, and otherwise re-persists the merged user, keeping storage in sync |
| AuthStore.ReloadAfterLogout | src/stores/authStore.ts:18-23 | reinitialising after logout gives a signed-out session |
| AuthStore.ReloadAfterSignIn | src/stores/authStore.ts:18-23 | reinitialising after login or signup restores the same user, signed in |
| AuthStore.LoginNamesUserByLocalPart | src/stores/authStore.ts:33 | logging in as jane@x.com names the user "jane" |
| AuthStore.AuthState.constructor | src/stores/authStore.ts:17-23 | the store starts in the state restored from storage |
| AuthStore.AuthState.Login | src/stores/authStore.ts:25-51 | the new state is `AfterLogin` of the old one |
| AuthStore.AuthState.Signup | src/stores/authStore.ts:54-81 | the new state is `AfterSignup` of the old one |
| AuthStore.AuthState.Logout | src/stores/authStore.ts:83-86 | the new state is `AfterLogout` of the old one |
| AuthStore.AuthState.UpdateUser | src/stores/authStore.ts:88-95 | the new state is `AfterUpdate` of the old one |
| AuthStore.AuthState.VerifyEmail | src/stores/authStore.ts:97-104 | marks the email verified through `updateUser`, only when a user is signed in |
| AuthStore.AuthState.EnableTwoFactor | src/stores/authStore.ts:106-113 | turns two-factor on through `updateUser`, only when a user is signed in |
| AuthStore.AuthState.DisableTwoFactor | src/stores/authStore.ts:115-122 | turns two-factor off through `updateUser`, only when a user is signed in |
| CourseStore.CourseById | src/stores/courseStore.ts:120 | the first catalog entry with the id, and none exactly when no entry has it |
| CourseStore.LessonIds | src/stores/courseStore.ts:160-161 | the lesson ids of a course, in order |
| CourseStore.ProgressFor | src/stores/courseStore.ts:160-161 | 0 for a course not in the catalog, `Infinity` for a course without lessons, else the completed share times 100 |
| CourseStore.NewEnrollment | src/stores/courseStore.ts:133-141 | a new enrollment for the current user at progress 0 with no completed lessons and id `enrollment_<now>` |
| CourseStore.Advance | src/stores/courseStore.ts:154-168 | records the lesson once (appended only if new), keeps lessons distinct, recomputes progress, sets the last lesson, changes nothing else |
| CourseStore.UpdatedEnrollments | src/stores/courseStore.ts:151-173 | enrollments of other courses are unchanged, those of the course are advanced, and the length is kept |
| CourseStore.MatchesSearch | src/stores/courseStore.ts:177-181 | the search test of a course; the empty query matches every course |
| CourseStore.MatchesFilters | src/stores/courseStore.ts:186-191 | the filter test of a course; with no category or level and a price other than "free"/"paid", every course passes |
| CourseStore.CourseState.constructor | src/stores/courseStore.ts:97-101 | the store starts empty, not loading, with the mock list fixed |
| CourseStore.CourseState.FetchCourses | src/stores/courseStore.ts:103-113 | the loaded courses become the mock list and loading ends |
| CourseStore.CourseState.FetchCourse | src/stores/courseStore.ts:115-126 | the current course is the first entry of the mock list with the id, or none when absent, which is not an error |
| CourseStore.CourseState.EnrollInCourse | src/stores/courseStore.ts:128-149 | appends exactly one new enrollment, and enrollments that agreed with the catalog still do |
| CourseStore.CourseState.UpdateProgress | src/stores/courseStore.ts:151-173 | the enrollments become `UpdatedEnrollments` of the old ones, and enrollments that agreed with the catalog still do |
| CourseStore.CourseState.SearchCourses | src/stores/courseStore.ts:175-182 | exactly the catalog courses whose title, description or a tag contains the query case-insensitively, in catalog order |
| CourseStore.CourseState.FilterCourses | src/stores/courseStore.ts:184-193 | exactly the catalog courses passing category, level and lower-case price filters, in catalog order |
| CourseStore.UpdatePreservesTracked | src/stores/courseStore.ts:151-173 | after `updateProgress`, lessons stay distinct and progress equals the share the completed lessons imply |
| CourseStore.EnrollAddsOneRecord | src/stores/courseStore.ts:143-145 | enrolling adds exactly one record for the course, even when one already exists |
| CourseStore.AdvanceCompletedLessonKeepsList | src/stores/courseStore.ts:156-158 | marking a completed lesson again leaves the lesson list unchanged |
| CourseStore.UpdateProgressIdempotent | src/stores/courseStore.ts:151-173 | a second identical `updateProgress` changes nothing |
| CourseStore.TrackedProgressAtMost100 | src/stores/courseStore.ts:155-161 | with completed ids drawn from the course's lessons, progress lies between 0 and 100 |
| CourseStore.UnknownLessonOverflows | src/stores/courseStore.ts:156-161 | a lesson id not in the course still counts: one lesson of one completed, plus a foreign id, gives 200 |
| CoursesPage.FilteredCourses | src/pages/CoursesPage.tsx:48-59 | exactly the courses passing search, category, level and price selectors, in catalog order |
| CoursesPage.Key | src/pages/CoursesPage.tsx:61-74 | the sort key; its difference is the comparator (see `Comparator`) |
| CoursesPage.Comparator | src/pages/CoursesPage.tsx:61-74 | the comparator as written, for every option, is the difference of the two courses' keys |
| CoursesPage.Insert | src/pages/CoursesPage.tsx:61-74 | inserting adds the element once and keeps the others |
| CoursesPage.InsertSorted | src/pages/CoursesPage.tsx:61-74 | inserting into a list sorted by the key keeps it sorted |
| CoursesPage.SortOn | src/pages/CoursesPage.tsx:61-74 | the result is sorted by the key and is a permutation of the input |
| CoursesPage.SortCourses | src/pages/CoursesPage.tsx:61-74 | `sortedCourses` is a permutation of the filtered list, sorted by the comparator's key |
| CoursesPage.SortOrders | src/pages/CoursesPage.tsx:62-73 | price ascending for "price-low"; price, rating, newest first or enrollments descending for the other options |
| CoursesPage.SortAgreesWithComparator | src/pages/CoursesPage.tsx:61-74 | the comparator puts no later course of the sorted list strictly before an earlier one |
| CoursesPage.ClearedFiltersShowAll | src/pages/CoursesPage.tsx:216-221 | with an empty query and every selector "All", every course is shown |
| CoursesPage.SearchIgnoresQueryCase | src/pages/CoursesPage.tsx:49-51 | lowering the query does not change the search result |
| CoursesPage.PriceSelector | src/pages/CoursesPage.tsx:54-56 | "Free" keeps only free courses, "Paid" only paid ones, and any other value besides "All" keeps none |
| CoursesPage.CatalogFilters.constructor | src/pages/CoursesPage.tsx:37-42 | empty query, all selectors "All", sort "popular", panel hidden |
| CoursesPage.CatalogFilters.Sorted | src/pages/CoursesPage.tsx:61-74 | the rendered list is a sorted permutation of the filtered one |
| CoursesPage.CatalogFilters.SetSearchQuery | src/pages/CoursesPage.tsx:106 | only the query changes |
| CoursesPage.CatalogFilters.SetSelectedCategory | src/pages/CoursesPage.tsx:161 | only the category changes |
| CoursesPage.CatalogFilters.SetSelectedLevel | src/pages/CoursesPage.tsx:181 | only the level changes |
| CoursesPage.CatalogFilters.SetSelectedPrice | src/pages/CoursesPage.tsx:200 | only the price selector changes |
| CoursesPage.CatalogFilters.SetSortBy | src/pages/CoursesPage.tsx:141 | only the sort order changes |
| CoursesPage.CatalogFilters.ToggleShowFilters | src/pages/CoursesPage.tsx:123 | only the panel's visibility flips |
| CoursesPage.CatalogFilters.ClearFilters | src/pages/CoursesPage.tsx:216-221 | the four selectors are reset, sort and panel are kept, and every catalog is then shown whole |
| DashboardPage.EnrolledCourses | src/pages/DashboardPage.tsx:29-31 | exactly the catalog courses with at least one enrollment, in catalog order |
| DashboardPage.CompletedCourses | src/pages/DashboardPage.tsx:33 | exactly the enrollments whose progress is 100, each with all its copies, in order |
| DashboardPage.InProgressCourses | src/pages/DashboardPage.tsx:34 | exactly the enrollments whose progress is strictly between 0 and 100, each with all its copies, in order |
| DashboardPage.CompletedAndInProgressDisjoint | src/pages/DashboardPage.tsx:33-34 | no enrollment is both, and one at 0 or at `Infinity` is neither |
| DashboardPage.DashboardStats | src/pages/DashboardPage.tsx:36-65 | Enrolled Courses is the length of the enrolled list, Completed Courses and Certificates the length of the completed list, hours the fixed "24.5"; each count is bounded by its source list |
| DashboardPage.NewEnrollmentStats | src/pages/DashboardPage.tsx:36-65 | a new enrollment raises Completed Courses and Certificates by one exactly when it is complete |
| DashboardPage.ReenrollKeepsEnrolledFigure | src/pages/DashboardPage.tsx:36-65 | re-enrolling in an enrolled course leaves Enrolled Courses as it was |
| DashboardPage.EnrolledCoursesDistinct | src/pages/DashboardPage.tsx:29-31 | each enrolled course is listed once, however many enrollments it has |
| DashboardPage.ReenrollKeepsEnrolledCourses | src/pages/DashboardPage.tsx:29-31 | a further enrollment in an enrolled course does not change the list |
| DashboardPage.ShownProgress | src/pages/DashboardPage.tsx:350-356 | a card shows the progress of the first enrollment of its course, or 0 |
| LoginPage.MatchesPattern | src/pages/LoginPage.tsx:26 | the regular expression as a run, '@', run, '.', run split; a match has at least five characters |
| LoginPage.ValidEmail | src/pages/LoginPage.tsx:26-27 | the executable address test; an accepted address has at least five characters and starts and ends with something other than '@' |
| LoginPage.ValidEmailMatches | src/pages/LoginPage.tsx:26-27 | an address passing the executable test matches the pattern |
| LoginPage.MatchesValidEmail | src/pages/LoginPage.tsx:26-27 | an address matching the pattern passes the executable test |
| LoginPage.PatternChars | src/pages/LoginPage.tsx:26 | apart from its '@', a matching address consists of `[^\s@]` characters |
| LoginPage.WitnessValid | src/pages/LoginPage.tsx:26-27 | a run, '@', run, '.', run split of an address makes it pass the executable test |
| LoginPage.ValidEmailIsPattern | src/pages/LoginPage.tsx:26-27 | the executable test and the pattern accept the same addresses |
| LoginPage.PatternShape | src/pages/LoginPage.tsx:26 | a matching address has no whitespace and exactly one '@', with something before it, then a '.' after it, with a character between them and one after the dot |
| LoginPage.Validate | src/pages/LoginPage.tsx:22-29 | "Please fill in all fields" exactly when a field is empty, else "Please enter a valid email address" exactly when the pattern fails, else no error |
| LoginPage.EmptinessCheckedFirst | src/pages/LoginPage.tsx:22-29 | an empty field is reported even when the address is also malformed |
| LoginPage.PlainAddressIsValid | src/pages/LoginPage.tsx:26-27 | jane@x.com passes the executable test |
| LoginPage.AcceptsPlainAddress | src/pages/LoginPage.tsx:22-29 | jane@x.com with a password passes |
| LoginPage.RefusesDomainWithoutDot | src/pages/LoginPage.tsx:26-29 | jane@xcom is refused as malformed |
| LoginPage.RefusesBlank | src/pages/LoginPage.tsx:26-29 | an address containing a space is refused as malformed |
| LoginPage.LoginForm.constructor | src/pages/LoginPage.tsx:11-13 | empty fields and no error |
| LoginPage.LoginForm.HandleSubmit | src/pages/LoginPage.tsx:17-39 | the error is cleared; a failed check sets it and an error toast and leaves the session alone; otherwise login, a success toast and navigation to /dashboard |
| ToastContainer.ToastIdOf | src/components/ui/ToastContainer.tsx:36 | the id is "toast-" followed by the counter's decimal digits |
| ToastContainer.ToastIdInjective | src/components/ui/ToastContainer.tsx:36 | different counter values give different ids |
| ToastContainer.NextIdIsFresh | src/components/ui/ToastContainer.tsx:14-36 | the next id was never handed out before |
| ToastContainer.RemoveToast | src/components/ui/ToastContainer.tsx:40-42 | removes every toast with the id and keeps the rest in order |
| ToastContainer.RemoveAbsentId | src/components/ui/ToastContainer.tsx:41 | removing an absent id leaves the list unchanged |
| ToastContainer.AddThenRemove | src/components/ui/ToastContainer.tsx:37-41 | adding a toast with a fresh id and removing that id restores the list |
| ToastContainer.ToastCenter.constructor | src/components/ui/ToastContainer.tsx:14-33 | counter at 0, no toasts, no container registered |
| ToastContainer.ToastCenter.Mount | src/components/ui/ToastContainer.tsx:45 | a rendered container registers its `addToast` |
| ToastContainer.ToastCenter.AddToast | src/components/ui/ToastContainer.tsx:35-38 | the counter goes up by one and one toast with the new, unused id is appended |
| ToastContainer.ToastCenter.RemoveById | src/components/ui/ToastContainer.tsx:40-42 | the list becomes `RemoveToast` of the old one |
| ToastContainer.ToastCenter.Dispatch | src/components/ui/ToastContainer.tsx:17-30 | without a registered container nothing happens, otherwise the toast is added |
| ToastContainer.ToastCenter.ToastSuccess | src/components/ui/ToastContainer.tsx:18-20 | adds a success toast when a container is registered |
| ToastContainer.ToastCenter.ToastError | src/components/ui/ToastContainer.tsx:21-23 | adds an error toast when a container is registered |
| ToastContainer.ToastCenter.ToastWarning | src/components/ui/ToastContainer.tsx:24-26 | adds a warning toast when a container is registered |
| ToastContainer.ToastCenter.ToastInfo | src/components/ui/ToastContainer.tsx:27-29 | adds an info toast when a container is registered |
| ToastContainer.AddThenClose | src/components/ui/ToastContainer.tsx:37-41 | adding a toast and closing it leaves the shown list as before |
| ProgressBar.Clamp | src/components/ui/ProgressBar.tsx:20 | the result is within 0..100, equals the input inside that range, and is 0 below it and 100 above it |
| ProgressBar.ClampIdempotent | src/components/ui/ProgressBar.tsx:20 | clamping twice is clamping once |
| ProgressBar.ClampMonotone | src/components/ui/ProgressBar.tsx:20 | clamping preserves order |
| ProgressBar.BarWidth | src/components/ui/ProgressBar.tsx:20 | the width is the clamp of a finite progress, so 100 above 100 and 0 below 0, and a full bar for `Infinity` |
| Rating.Stars | src/components/ui/Rating.tsx:35-38 | `maxRating` stars (none for negative), numbered from 1, filled up to the rating, half filled within half a star below it |
| Rating.AtMostOneHalfStar | src/components/ui/Rating.tsx:37-38 | no star is both filled and half filled, and at most one is half filled |
| Rating.FilledStarsArePrefix | src/components/ui/Rating.tsx:37 | the filled stars form a prefix of the row |
| Rating.StarClick | src/components/ui/Rating.tsx:26-30 | a click reports its star's rating exactly when the widget is interactive and has a callback |
| VideoPlayer.Initial | src/components/course/VideoPlayer.tsx:14-18 | paused at 0 with unknown duration, full volume, unmuted, and in sync with a fresh element |
| VideoPlayer.TogglePlayed | src/components/course/VideoPlayer.tsx:51-61 | without an element nothing changes; otherwise the element is paused or started and `isPlaying` flips |
| VideoPlayer.Seeked | src/components/course/VideoPlayer.tsx:63-70 | element and state move to the slider's share of the known duration |
| VideoPlayer.SeekSlider | src/components/course/VideoPlayer.tsx:149 | the seek slider shows 0 without a duration, else the position's share of it times 100 |
| VideoPlayer.SeekRoundTrip | src/components/course/VideoPlayer.tsx:63-70 | a seek in range lands within the video, and the slider then shows the chosen position |
| VideoPlayer.VolumeChanged | src/components/course/VideoPlayer.tsx:72-80 | element and stored volume become the slider value over 100, muted exactly when it is 0 |
| VideoPlayer.VolumeSlider | src/components/course/VideoPlayer.tsx:178 | the volume slider shows 0 when muted, and 100 times the element's volume in a synced player |
| VideoPlayer.VolumeRoundTrip | src/components/course/VideoPlayer.tsx:72-80 | after a volume change the volume slider shows the chosen position |
| VideoPlayer.MuteToggled | src/components/course/VideoPlayer.tsx:82-93 | muting silences the element, unmuting restores the stored volume, and the stored volume never changes |
| VideoPlayer.MuteTwiceRestores | src/components/course/VideoPlayer.tsx:82-93 | two mute toggles restore the whole player, element volume included |
| VideoPlayer.SkipTarget | src/components/course/VideoPlayer.tsx:99 | the target lies within 0..duration, equal to the sum inside that range and clamped outside it |
| VideoPlayer.Skipped | src/components/course/VideoPlayer.tsx:95-100 | only the element's position moves, to the clamped target |
| VideoPlayer.TimeUpdated | src/components/course/VideoPlayer.tsx:25-26 | without an element nothing changes; otherwise the state takes the element's position |
| VideoPlayer.ReportedProgress | src/components/course/VideoPlayer.tsx:27-28 | the reported percentage times the duration is 100 times the position, and none is reported when the duration is 0 |
| VideoPlayer.ReportedProgressInRange | src/components/course/VideoPlayer.tsx:27 | a position within the video is reported as 0..100 |
| VideoPlayer.MetadataLoaded | src/components/course/VideoPlayer.tsx:31-33 | without an element nothing changes; otherwise the state takes the element's duration |
| VideoPlayer.Ended | src/components/course/VideoPlayer.tsx:35-38 | without an element nothing changes; otherwise playing stops, with the element paused |
| VideoPlayer.EveryStepKeepsSynced | src/components/course/VideoPlayer.tsx:25-100 | every handler keeps the element's volume and paused flag in step with the state |
| VideoPlayer.Rem60 | src/components/course/VideoPlayer.tsx:115 | JavaScript's `time % 60`: a remainder of the sign of the time, below 60 in size, differing from the time by a multiple of 60 |
| VideoPlayer.SplitMinutes | src/components/course/VideoPlayer.tsx:114-115 | for t ≥ 0 the minutes and seconds fields split the whole seconds, with seconds below 60 |
| VideoPlayer.PaddedSeconds | src/components/course/VideoPlayer.tsx:116 | seconds below 60 are shown as two digits that read back as them |
| VideoPlayer.ClockOf | src/components/course/VideoPlayer.tsx:116 | an M:SS clock reads back as 60·M + SS |
| VideoPlayer.ClockRoundTrip | src/components/course/VideoPlayer.tsx:116 | a clock of whole minutes and seconds below 60 is the minutes, ':', two digits, and reads back as 60·minutes + seconds |
| VideoPlayer.FormatTime | src/components/course/VideoPlayer.tsx:113-117 | for t ≥ 0 the display is the floored minutes, ':', two digits of seconds below 60, reading back as the whole seconds of t |
| VideoPlayer.PlayerState.constructor | src/components/course/VideoPlayer.tsx:13-18 | the player starts in the initial state |
| VideoPlayer.PlayerState.TogglePlay | src/components/course/VideoPlayer.tsx:51-61 | the new state is `TogglePlayed` of the old one |
| VideoPlayer.PlayerState.HandleSeek | src/components/course/VideoPlayer.tsx:63-70 | the new state is `Seeked` of the old one |
| VideoPlayer.PlayerState.HandleVolumeChange | src/components/course/VideoPlayer.tsx:72-80 | the new state is `VolumeChanged` of the old one |
| VideoPlayer.PlayerState.ToggleMute | src/components/course/VideoPlayer.tsx:82-93 | the new state is `MuteToggled` of the old one |
| VideoPlayer.PlayerState.Skip | src/components/course/VideoPlayer.tsx:95-100 | the new state is `Skipped` of the old one |
| VideoPlayer.PlayerState.HandleTimeUpdate | src/components/course/VideoPlayer.tsx:25-29 | the new state is `TimeUpdated` of the old one, and the value passed to `onProgress` is returned |
| VideoPlayer.PlayerState.HandleLoadedMetadata | src/components/course/VideoPlayer.tsx:31-33 | the new state is `MetadataLoaded` of the old one |
| VideoPlayer.PlayerState.HandleEnded | src/components/course/VideoPlayer.tsx:35-38 | the new state is `Ended` of the old one, and it reports whether `onComplete` would be called if one was given |

## Left out

- Rendering: JSX, styling, animation, icons, the sizes of the progress bar and rating stars, and `Math.round` of the shown percentage.
- Asynchrony: each `await` on a fixed delay is one atomic step. The `isLoading` window during it is not modelled.
- Interleavings: two calls in flight at once are not modelled.
- Storage: JSON serialisation is not modelled. A failure to write to storage (a full quota) is left out, and with it the `catch` branches that rethrow it and the "Failed to log in" fallback message. In the model, writes always succeed.
- Text and numbers: `toLowerCase` lowers ASCII letters only. Numbers are exact reals: no IEEE rounding and no NaN. `ProgressBar.Clamp` therefore does not model `Math.max(NaN, 0)`.
- Dates: parsing `createdAt` ISO strings is replaced by the time value they denote. ISO strings for the current time are parameters.
- The mock catalog: its content is not modelled. The course store fixes it at construction as its `catalog` constant.
- Nested records no modelled operation reads are not part of this model: the instructor, lesson resources, quizzes and assignments.
- CoursesPage.SortCourses: its stability is not proved. Only sortedness and permutation are proved.
- AuthStore.Merge: an update that explicitly sets a field to `undefined` is treated as absent.
- AuthStore.Restore: stored text that is not a valid user is not modelled. Storage maps keys to users.
- The toast counter: it is module-wide and a single container is assumed. With several containers mounted at once, the last one to render receives the toasts.
- Toast timers and the `Toast` component's own auto-close are not part of this model. Closing goes through `RemoveById`.
- The video element: both exceptions below are assumed not to occur.
  - It keeps `currentTime` where it is set; browser clamping on seek is not modelled.
  - A rejected `play()` promise is left out.
- The video element's own playback between events is not modelled. `timeupdate` takes whatever position the element reports.
- VideoPlayer.ReportedProgress: the `NaN`/`Infinity` passed to `onProgress` when the element reports no duration is represented as `None`.
- VideoPlayer.PlayerState.HandleVolumeChange requires the slider's 0..100 range, because the element refuses volumes outside 0..1.
- Fullscreen (`toggleFullscreen`) and the controls' visibility on hover are not modelled.
- Social login buttons and the page's other links are not modelled.
