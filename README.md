# SkillHub lesson progress, certificates and access rules in Dafny

SkillHub is an online learning platform. It has a Spring backend and an Angular client.
Instructors publish courses made of video lessons. Students enroll, watch the lessons and
receive a certificate once they have watched enough of a course. This project models the
logic core of both sides and proves properties of it:

- **Video progress.** This covers the `VideoProgress` record, whose setters recompute a
  HALF_UP-rounded percentage. It also covers the progress table and its queries. The
  service records watched time, applies the completion rule (50 % from 20 seconds on,
  90 % below) and decides lesson accessibility and the next accessible lesson. Percentages
  on the server are integers in hundredths of a percent.
- **Certificates.** This covers issuance on demand, eligibility at an 80 % course average,
  and the automatic issuing loop over a student's enrolled courses. It also covers the
  client's list of certificates, de-duplicated per course.
- **Client components.**
  - The lesson page, the video player and the course page.
  - The dashboards, with their statistics and chart buckets.
  - The admin panel's search, paging, local deletes and CSV export.
  - The catalogue's filter and sort.
  - The course and lesson forms: validators, wizard steps and payloads.
  - The video upload widget.
  - The login error messages.
  - The session store, the two route guards and the HTTP error interceptor.
- **Server controllers and services.**
  - The dashboard aggregations.
  - Video streaming with Range headers, and upload checks.
  - S3 key handling and presigning.
  - Lesson access and role gates.
  - Users, enrollments and courses, with their ownership checks.

Each source file is one module. Server tables are sequences of rows in table order. The
current user, the clock, UUIDs, HTTP answers and other outside inputs are parameters. An
exception is an `Err` carrying its message. Where the source updates fields in place, the
model is a class: each method states its whole new state in terms of `old` and the
specification functions. Lemmas relate those functions to one another. The shared modules
model the language's own behaviour:
- `Strings`: Java's `split`, `replace`, `Long.parseLong` and `substring`, and the
  JavaScript string functions.
- `Client`: JavaScript's `Math.round`, `%` and `||` on numbers and texts.
- `Forms`: Angular's built-in validators.

`capProgress` is written out twice in the source, in the course page and in the
dashboard, with the same body. Both use `Client.CapProgress`. `getBaseUrl` is likewise
written out in both certificate services, and both use `CertificateService.GetBaseUrl`.

## Model

| member | source | states |
|---|---|---|
| Entities.FindLesson | backend/src/main/java/com/skillhub/service/LessonService.java:21-23 | the lesson found is in the table with that id; none is found only when no lesson has it |
| Entities.FindCourse | backend/src/main/java/com/skillhub/service/CourseService.java:114-115 | the course found is in the table with that id; none is found only when no course has it |
| Entities.FindUser | backend/src/main/java/com/skillhub/service/UserService.java:88-90 | the user found is in the table with that id; none is found only when no user has it |
| Entities.FindCertificate | backend/src/main/java/com/skillhub/repository/CertificateRepository.java:19 | the certificate found is in the table and belongs to the student and course; none is found only when no certificate does |
| Entities.FindEnrollment | backend/src/main/java/com/skillhub/repository/EnrollmentRepository.java:19 | the enrollment found is in the table and belongs to the student and course; none is found only when no enrollment does |
| Client.CapProgress | frontend/src/app/components/course-detail/course-detail.component.ts:32-34 | a capped progress lies in 0..100: a null progress reads as 0, a value in range is kept, and values outside are clamped to the nearer bound |
| Client.CapProgressIdempotent | frontend/src/app/components/course-detail/course-detail.component.ts:32-34 | capping an already capped progress changes nothing |
| Forms.TextErrors | frontend/src/app/components/course-form/course-form.component.ts:68-73 | a text control is valid exactly when it is non-empty if required, empty or at least the minimum length, and at most the maximum length, lengths counted in UTF-16 code units as JavaScript's `length` counts them |
| Forms.NumberErrors | frontend/src/app/components/lesson-form/lesson-form.component.ts:70-71 | a number control is valid exactly when it has a value if required and any value it has lies within its min and max |
| Forms.FieldMessage | frontend/src/app/components/lesson-form/lesson-form.component.ts:310-333 | the message is empty exactly for an untouched or valid control; otherwise the first failing check is named, required before minimum length |
| Forms.TextMessage | frontend/src/app/components/course-form/course-form.component.ts:236-246 | a touched, required text control with both lengths set shows "is required" when empty, the minimum-length message when too short, the maximum-length message when too long, and nothing otherwise, lengths in UTF-16 code units |
| VideoProgressEntity.RoundHalfUp | backend/src/main/java/com/skillhub/entity/VideoProgress.java:55-56 | the quotient is the integer nearest to n/d, a tie going away from zero (RoundingMode.HALF_UP) |
| VideoProgressEntity.Percentage | backend/src/main/java/com/skillhub/entity/VideoProgress.java:55-61 | the stored percentage never exceeds 100 %, is non-negative for non-negative watched time, and below the cap is watched/total rounded HALF_UP to four places, times 100 |
| VideoProgressEntity.PercentageAtLeast | backend/src/main/java/com/skillhub/entity/VideoProgress.java:55-61 | the percentage reaches k hundredths exactly when 20000·watched ≥ (2k−1)·total, the point where HALF_UP tips over |
| VideoProgressEntity.FullPercentMeansAlmostAll | backend/src/main/java/com/skillhub/entity/VideoProgress.java:59-63 | the percentage is 100 % exactly when watched/total ≥ 0.99995 |
| VideoProgressEntity.Recomputed | backend/src/main/java/com/skillhub/entity/VideoProgress.java:53-65 | without a positive total nothing changes; otherwise the percentage is recomputed and the flag becomes "percentage ≥ 100 %", which can clear it; ids and durations are kept |
| VideoProgressEntity.RecomputeIdempotent | backend/src/main/java/com/skillhub/entity/VideoProgress.java:53-65 | recomputing twice is recomputing once |
| VideoProgressEntity.RecomputedIsCalculated | backend/src/main/java/com/skillhub/entity/VideoProgress.java:53-65 | after a recompute with a positive total the flag means exactly watched/total ≥ 0.99995 |
| VideoProgressEntity.VideoProgress.Empty | backend/src/main/java/com/skillhub/entity/VideoProgress.java:15-28 | the no-argument constructor leaves the field defaults: watched 0, total 0, percentage 0, not completed |
| VideoProgressEntity.VideoProgress.constructor | backend/src/main/java/com/skillhub/entity/VideoProgress.java:44-51 | the four-argument constructor stores student, lesson and durations, then recomputes |
| VideoProgressEntity.VideoProgress.Load | backend/src/main/java/com/skillhub/entity/VideoProgress.java:10-38 | a record loaded from the table holds exactly the stored row |
| VideoProgressEntity.VideoProgress.CalculateCompletionPercentage | backend/src/main/java/com/skillhub/entity/VideoProgress.java:53-65 | the new row is the recompute of the old one |
| VideoProgressEntity.VideoProgress.SetWatchedDuration | backend/src/main/java/com/skillhub/entity/VideoProgress.java:101-104 | the setter stores the watched time and recomputes |
| VideoProgressEntity.VideoProgress.SetTotalDuration | backend/src/main/java/com/skillhub/entity/VideoProgress.java:110-113 | the setter stores the total (possibly null) and recomputes |
| VideoProgressEntity.VideoProgress.SetCompletionPercentage | backend/src/main/java/com/skillhub/entity/VideoProgress.java:119-121 | the setter stores the percentage and changes nothing else, the flag included |
| VideoProgressEntity.VideoProgress.SetIsCompleted | backend/src/main/java/com/skillhub/entity/VideoProgress.java:135-137 | the setter stores the flag and changes nothing else |
| VideoProgressRepository.FindByStudentIdAndLessonId | backend/src/main/java/com/skillhub/repository/VideoProgressRepository.java:15-16 | a record found is in the table and belongs to the pair; none found means no record of the table belongs to it |
| VideoProgressRepository.Save | backend/src/main/java/com/skillhub/repository/VideoProgressRepository.java:13 | after save the record is stored, every stored record is it or an old one, and every old record of another pair is still there |
| VideoProgressRepository.SaveKeepsPairsUnique | backend/src/main/java/com/skillhub/repository/VideoProgressRepository.java:13-16 | save keeps at most one record per (student, lesson) pair, which the Optional lookup presumes |
| VideoProgressRepository.SaveThenFind | backend/src/main/java/com/skillhub/repository/VideoProgressRepository.java:13-16 | the lookup of the pair just saved returns the saved record |
| VideoProgressRepository.SaveKeepsOtherPairs | backend/src/main/java/com/skillhub/repository/VideoProgressRepository.java:13-16 | saving one record leaves the lookup of every other pair unchanged |
| VideoProgressRepository.FindByStudentId | backend/src/main/java/com/skillhub/repository/VideoProgressRepository.java:18-19 | exactly the student's records |
| VideoProgressRepository.FindCompletedLessonsByStudent | backend/src/main/java/com/skillhub/repository/VideoProgressRepository.java:24-25 | exactly the student's records whose completed flag is set |
| VideoProgressRepository.FindByStudentIdAndCourseId | backend/src/main/java/com/skillhub/repository/VideoProgressRepository.java:27-28 | exactly the student's records whose lesson belongs to the course |
| VideoProgressRepository.CalculateCourseProgress | backend/src/main/java/com/skillhub/repository/VideoProgressRepository.java:30-31 | the average is null exactly when the student has no record for a lesson of the course (SQL AVG over no rows) |
| VideoProgressRepository.SumBounds | backend/src/main/java/com/skillhub/repository/VideoProgressRepository.java:30-31 | with every percentage in [0, 100 %] the sum lies in [0, 100 % × count] |
| VideoProgressRepository.AverageInRange | backend/src/main/java/com/skillhub/repository/VideoProgressRepository.java:30-31 | with every stored percentage in [0, 100 %] the course average lies in [0, 100] |
| VideoProgressService.Threshold | backend/src/main/java/com/skillhub/service/VideoProgressService.java:60-71 | the completion threshold is 50 % for a video of 20 seconds or more and 90 % otherwise |
| VideoProgressService.ApplyThreshold | backend/src/main/java/com/skillhub/service/VideoProgressService.java:60-71 | only the completion flag changes, and it ends up set exactly when it was set already or the percentage has reached the threshold for the total |
| VideoProgressService.Reported | backend/src/main/java/com/skillhub/service/VideoProgressService.java:32-47 | the watched time of a loaded record only grows; a set, non-zero total is kept; a missing or zero total is taken from the lesson, or from the watched time when the lesson has none |
| VideoProgressService.UpdatedProgress | backend/src/main/java/com/skillhub/service/VideoProgressService.java:28-73 | an existing record is always updated; a new one needs the student and the lesson, failing with "User not found with id: …" or "Lesson not found"; the record keeps its pair, the watched time only grows, a set total is kept, and with a positive total the percentage is recomputed and the flag equals reaching the threshold |
| VideoProgressService.CompletionRule | backend/src/main/java/com/skillhub/service/VideoProgressService.java:58-71 | with a positive total, the flag after an update is the rounded-percentage threshold restated as one integer comparison of watched and total time |
| VideoProgressService.TotalFilledFromLesson | backend/src/main/java/com/skillhub/service/VideoProgressService.java:38-46 | updating a record without a total fills it from the lesson's duration, or with the watched time when that is missing or zero |
| VideoProgressService.MarkedCompleted | backend/src/main/java/com/skillhub/service/VideoProgressService.java:107-131 | the result is completed; a completed record is returned unchanged; an unfinished one gets 100 % and keeps its times; a new one needs the student and the lesson and gets the lesson's duration (600 s by default) as both times |
| VideoProgressService.MarkIdempotent | backend/src/main/java/com/skillhub/service/VideoProgressService.java:107-131 | marking a lesson completed twice gives the same record as marking it once |
| VideoProgressService.MarkedCompletionCanBeCleared | backend/src/main/java/com/skillhub/service/VideoProgressService.java:58-71 | a lesson marked completed by hand is un-completed by the next report of a short watch, because the update recomputes the percentage and the flag is set from it alone |
| VideoProgressService.CalculateCourseProgress | backend/src/main/java/com/skillhub/service/VideoProgressService.java:98-105 | the course progress is within 0..100, is 0 when the student has no record in the course, and is the repository's average otherwise |
| VideoProgressService.InsertByOrder | backend/src/main/java/com/skillhub/service/VideoProgressService.java:179 | inserting a lesson adds exactly that lesson to the list |
| VideoProgressService.InsertKeepsSorted | backend/src/main/java/com/skillhub/service/VideoProgressService.java:179 | inserting into a list sorted by lesson order keeps it sorted |
| VideoProgressService.SortByOrder | backend/src/main/java/com/skillhub/service/VideoProgressService.java:179 | the sort returns a permutation of its input, ordered by lesson order |
| VideoProgressService.FilterCourse | backend/src/main/java/com/skillhub/service/LessonService.java:17-19 | a lesson is kept exactly when it is one of the lessons and belongs to the course |
| VideoProgressService.CourseLessons | backend/src/main/java/com/skillhub/service/LessonService.java:17-19 | the course's lessons are exactly the lessons of that course, ordered by lesson order |
| VideoProgressService.FirstWithOrder | backend/src/main/java/com/skillhub/service/VideoProgressService.java:158-161 | the lesson found has the asked order and is in the list; none is found only when no lesson has that order |
| VideoProgressService.IsLessonAccessible | backend/src/main/java/com/skillhub/service/VideoProgressService.java:137-170 | an unknown lesson is not accessible; a lesson of order 1 always is; any other accessible lesson has a previous lesson of its course (order one less) that the student has completed |
| VideoProgressService.AccessibleIffPreviousCompleted | backend/src/main/java/com/skillhub/service/VideoProgressService.java:137-170 | when lesson orders are unique within a course, a lesson after the first is accessible if and only if the student completed the lesson of the previous order |
| VideoProgressService.GetNextAccessibleLesson | backend/src/main/java/com/skillhub/service/VideoProgressService.java:175-193 | the lesson returned is accessible and not completed, and no earlier lesson of the course, in lesson order, is; none is returned only when no lesson of the course is accessible and unfinished |
| VideoProgressService.FirstOpenAndUnfinished | backend/src/main/java/com/skillhub/service/VideoProgressService.java:181-192 | the loop returns the first lesson of the sorted list that is accessible and not completed, or nothing when there is none |
| VideoProgressService.Service.constructor | backend/src/main/java/com/skillhub/service/VideoProgressService.java:13-16 | the service starts over the given progress table |
| VideoProgressService.Service.UpdateProgress | backend/src/main/java/com/skillhub/service/VideoProgressService.java:28-80 | the result is UpdatedProgress of the stored record for the pair; a successful update saves the record; an error leaves the table unchanged |
| VideoProgressService.Service.MarkLessonCompleted | backend/src/main/java/com/skillhub/service/VideoProgressService.java:107-132 | the result is MarkedCompleted of the stored record for the pair; a success saves the record; an error leaves the table unchanged |
| VideoProgressService.Service.ApplyReport | backend/src/main/java/com/skillhub/service/VideoProgressService.java:35-47 | the setters applied to a loaded record leave exactly the reported row: the watched time never decreases and a missing total is filled |
| VideoProgressService.Service.MarkIfThresholdMet | backend/src/main/java/com/skillhub/service/VideoProgressService.java:58-71 | after recomputing the percentage, the flag is raised when the completion rule is met (50 % from 20 seconds on, 90 % below) and otherwise left as it was |
| LessonDetail.CompletionThreshold | frontend/src/app/components/lesson-detail/lesson-detail.component.ts:266-270 | the page's threshold is 50 % for a lesson of 20 s or more and 90 % otherwise, a missing lesson or duration counting as 0 s |
| LessonDetail.SameThresholdAsServer | frontend/src/app/components/lesson-detail/lesson-detail.component.ts:266-270 | the page's threshold, in percent, equals the server's threshold in hundredths for the same lesson duration |
| LessonDetail.ReportedDuration | frontend/src/app/components/lesson-detail/lesson-detail.component.ts:286 | the watched time posted on auto-completion is the lesson's duration, or 600 s when it is missing or zero |
| LessonDetail.AutoCompletionReportCompletes | frontend/src/app/components/lesson-detail/lesson-detail.component.ts:272-300 | the report posted on auto-completion creates a completed record on the server for any lesson without a zero duration |
| LessonDetail.AutoCompletionOfZeroLengthLesson | frontend/src/app/components/lesson-detail/lesson-detail.component.ts:286 | a lesson whose duration is 0 posts 600 s, but the server keeps 0 as the total, so the new record is not completed |
| LessonDetail.StudentNavigation | frontend/src/app/components/lesson-detail/lesson-detail.component.ts:366-384 | a student may go to any earlier lesson, stays on the current one, reaches the next one only once the current one is completed, and is refused anything further |
| LessonDetail.TargetOrder | frontend/src/app/components/lesson-detail/lesson-detail.component.ts:362-363 | a lesson id missing from the course list reads as order 0 |
| LessonDetail.UnknownTargetCountsAsEarlier | frontend/src/app/components/lesson-detail/lesson-detail.component.ts:361-370 | a student asking for an id that is not in the course list is navigated to it, since order 0 counts as an earlier lesson |
| LessonDetail.FindIndex | frontend/src/app/components/lesson-detail/lesson-detail.component.ts:399 | findIndex returns the first index holding the id, or -1 when no lesson has it |
| LessonDetail.NextLesson | frontend/src/app/components/lesson-detail/lesson-detail.component.ts:396-401 | there is no next lesson without a current lesson or a course list; the next lesson is from the list and follows the current one; a current lesson missing from the list gives the first lesson; the last lesson has no next one, and a lesson found at index i before the last gives the entry at i + 1 |
| LessonDetail.PreviousLesson | frontend/src/app/components/lesson-detail/lesson-detail.component.ts:403-408 | there is no previous lesson without a current lesson, for a current lesson missing from the list, or for the lesson found at index 0; a lesson found at index i > 0 gives the entry at i - 1 |
| LessonDetail.NextAndPreviousAreNeighbours | frontend/src/app/components/lesson-detail/lesson-detail.component.ts:396-408 | with distinct ids, the next lesson of entry i is entry i+1 and the previous lesson of entry i+1 is entry i |
| LessonDetail.FormattedDuration | frontend/src/app/components/lesson-detail/lesson-detail.component.ts:410-422 | the duration text always ends in the seconds unit |
| LessonDetail.FormattedDurationSplits | frontend/src/app/components/lesson-detail/lesson-detail.component.ts:410-422 | for a non-negative duration the text gives its hours, minutes and seconds, with leading zero units left out |
| LessonDetail.LessonDetailComponent.constructor | frontend/src/app/components/lesson-detail/lesson-detail.component.ts:40-44 | the page starts loading, with no lesson, no error, 0 % progress, not completed and the next button disabled |
| LessonDetail.LessonDetailComponent.LoadLesson | frontend/src/app/components/lesson-detail/lesson-detail.component.ts:82-89 | loading a lesson first resets the progress, the completion flag and the next button, and clears the error |
| LessonDetail.LessonDetailComponent.LessonArrived | frontend/src/app/components/lesson-detail/lesson-detail.component.ts:113-124 | the lesson is stored; the course, its lessons and the progress are requested only when the body has a course id; otherwise the page stops loading with the incomplete-data message |
| LessonDetail.LessonDetailComponent.LessonFailed | frontend/src/app/components/lesson-detail/lesson-detail.component.ts:144-152 | when both lesson requests fail the page stops loading with the message chosen by the second request's status |
| LessonDetail.LessonLoadError | frontend/src/app/components/lesson-detail/lesson-detail.component.ts:144-151 | a 404 names the lesson's id, a 401 asks to log in, and every other status shows the generic failure |
| LessonDetail.LessonDetailComponent.CourseLessonsArrived | frontend/src/app/components/lesson-detail/lesson-detail.component.ts:181-186 | the course list stored is the received lessons, sorted by lesson order, and loading ends |
| LessonDetail.LessonDetailComponent.LoadVideoProgress | frontend/src/app/components/lesson-detail/lesson-detail.component.ts:204-258 | a request is made only for a student; for anyone else the next button is enabled; a received record sets the progress and the flag and the button follows the flag; when both requests fail the lesson shows 0 % and not completed |
| LessonDetail.LessonDetailComponent.OnVideoProgressUpdate | frontend/src/app/components/lesson-detail/lesson-detail.component.ts:262-306 | the progress is stored; the lesson becomes completed, and the button enabled, once the threshold is reached and stays so; a report is posted only on the first crossing, with a token and a lesson |
| LessonDetail.LessonDetailComponent.MarkLessonAsComplete | frontend/src/app/components/lesson-detail/lesson-detail.component.ts:318-357 | without a lesson or a token nothing happens; otherwise the completion is posted and the page shows 100 % and completed whether the request succeeds or fails |
| LessonDetail.LessonDetailComponent.NavigateToLesson | frontend/src/app/components/lesson-detail/lesson-detail.component.ts:359-388 | students are gated by StudentNavigation on the current and target orders; every other user may go to any lesson |
| VideoPlayer.ChooseSource | frontend/src/app/components/video-player/video-player.component.ts:47-73 | an http URL in videoUrl is played directly, then one in videoFilename; no filename is the error case; otherwise the named file is fetched from the server |
| VideoPlayer.OtherStatusesShowConnectionMessage | frontend/src/app/components/video-player/video-player.component.ts:120-134 | the connection message is shown exactly when the status is not 401, 403 or 404, which have their own messages |
| VideoPlayer.VideoErrorMessage | frontend/src/app/components/video-player/video-player.component.ts:118-135 | the authentication, not-found and access-denied messages appear exactly for 401, 404 and 403 |
| VideoPlayer.Percent | frontend/src/app/components/video-player/video-player.component.ts:202-204 | the emitted percentage is 0 without a positive duration and lies within 0..100 for a position inside the video |
| VideoPlayer.ThrottleStep | frontend/src/app/components/video-player/video-player.component.ts:212-216 | a save is attempted exactly when there is a lesson id, the position is past 0 and at least 5000 ms have passed since the last save, and only an attempt moves the last-save time |
| VideoPlayer.SavesAreSpaced | frontend/src/app/components/video-player/video-player.component.ts:212-216 | over any run of time updates, successive save attempts are at least 5000 ms apart, and the first is 5000 ms after the last save |
| VideoPlayer.RealRem60 | frontend/src/app/components/video-player/video-player.component.ts:270 | the remainder of a non-negative position by 60 lies in 0..60 |
| VideoPlayer.FormatTimeShowsMinutesAndSeconds | frontend/src/app/components/video-player/video-player.component.ts:268-272 | a position of m minutes, s seconds and a fraction is shown as m, a colon and s as two digits |
| VideoPlayer.FormatTime | frontend/src/app/components/video-player/video-player.component.ts:268-272 | a position in the video reads as minutes, ':' and exactly two digits of seconds |
| VideoPlayer.VideoPlayerComponent.constructor | frontend/src/app/components/video-player/video-player.component.ts:14-29 | the player starts loading, with its inputs, no URL, no error, position and duration 0, paused and no save yet |
| VideoPlayer.VideoPlayerComponent.LoadVideo | frontend/src/app/components/video-player/video-player.component.ts:47-73 | the source chosen is ChooseSource; a direct URL is played at once, a missing file sets "No video file specified", and a fetch waits for its response; nothing else changes |
| VideoPlayer.VideoPlayerComponent.VideoFetched | frontend/src/app/components/video-player/video-player.component.ts:79-83 | a fetched video is played from its object URL and loading ends |
| VideoPlayer.VideoPlayerComponent.HandleVideoError | frontend/src/app/components/video-player/video-player.component.ts:118-134 | a failed load ends loading with the message for its status |
| VideoPlayer.VideoPlayerComponent.MetadataLoaded | frontend/src/app/components/video-player/video-player.component.ts:141-145 | the media element's duration is stored and nothing else changes |
| VideoPlayer.VideoPlayerComponent.TimeUpdate | frontend/src/app/components/video-player/video-player.component.ts:202-233 | the position is stored, its percentage emitted, the throttle decides the attempt, and an attempt with a token posts the whole seconds watched |
| VideoPlayer.VideoPlayerComponent.MarkLessonCompleted | frontend/src/app/components/video-player/video-player.component.ts:243-264 | the completion is posted for the lesson exactly when there is a lesson id and a token |
| VideoPlayer.VideoPlayerComponent.ProgressPercentage | frontend/src/app/components/video-player/video-player.component.ts:274-277 | for a non-negative duration the displayed percentage agrees with the emitted one, although one tests for 0 and the other for a positive duration |
| CourseDetail.Recorded | frontend/src/app/components/course-detail/course-detail.component.ts:196-222 | the lookup maps after the responses hold their old keys plus every lesson id looked up |
| CourseDetail.RecordedComesFromResponses | frontend/src/app/components/course-detail/course-detail.component.ts:196-222 | every lesson looked up holds the value of one of its own responses, and every other key keeps its old value |
| CourseDetail.AccessValue | frontend/src/app/components/course-detail/course-detail.component.ts:200-208 | a lesson is recorded open exactly when its accessibility request succeeded and said true; a failed request records it locked |
| CourseDetail.CompletionValue | frontend/src/app/components/course-detail/course-detail.component.ts:211-219 | a lesson is recorded completed exactly when its progress request succeeded with isCompleted true |
| CourseDetail.AccessValues | frontend/src/app/components/course-detail/course-detail.component.ts:196-222 | the values recorded for the lessons are, position by position, the access value of each response |
| CourseDetail.CompletionValues | frontend/src/app/components/course-detail/course-detail.component.ts:196-222 | the values recorded for the lessons are, position by position, the completion value of each response |
| CourseDetail.LockedUnlessServerSaidOpen | frontend/src/app/components/course-detail/course-detail.component.ts:196-226 | a lesson for which no accessibility response said true, and which was not already open, reads as locked |
| CourseDetail.IssueErrorMessage | frontend/src/app/components/course-detail/course-detail.component.ts:306-322 | a failed issuance shows a text body verbatim, else the body's error field, else "Failed to issue certificate. Please try again." |
| CourseDetail.CourseDetailComponent.constructor | frontend/src/app/components/course-detail/course-detail.component.ts:13-30 | the page starts with no course, empty lookup maps, no certificate flags, 0 % completion, not enrolled and not enrolling |
| CourseDetail.CourseDetailComponent.CheckUserRole | frontend/src/app/components/course-detail/course-detail.component.ts:74-82 | the instructor view is shown exactly to instructors and admins, and nothing else changes |
| CourseDetail.CourseDetailComponent.IsLessonAccessible | frontend/src/app/components/course-detail/course-detail.component.ts:224-226 | a lesson never recorded reads locked, and an open lesson is recorded as open |
| CourseDetail.CourseDetailComponent.IsLessonCompleted | frontend/src/app/components/course-detail/course-detail.component.ts:228-230 | a lesson never recorded reads not completed, and a completed lesson is recorded as completed |
| CourseDetail.CourseDetailComponent.LoadLessonAccessibility | frontend/src/app/components/course-detail/course-detail.component.ts:196-222 | for each lesson of the loaded course its access and completion responses are recorded under its id; without a course or lessons nothing changes |
| CourseDetail.CourseDetailComponent.NavigateToLesson | frontend/src/app/components/course-detail/course-detail.component.ts:232-238 | the page navigates to a lesson exactly when the user has the instructor view or the lesson is recorded open |
| CourseDetail.CourseDetailComponent.CheckCertificateEligibility | frontend/src/app/components/course-detail/course-detail.component.ts:240-273 | an ineligible student has neither flag; an eligible one is offered the button unless a certificate titled like the course exists, or when the certificate list fails; a failed eligibility request leaves both flags; the button and an existing certificate never show together |
| CourseDetail.CourseDetailComponent.LoadCompletionPercentage | frontend/src/app/components/course-detail/course-detail.component.ts:275-290 | a response stores its completion capped to 0..100; an error changes nothing |
| CourseDetail.CourseDetailComponent.IssueCertificate | frontend/src/app/components/course-detail/course-detail.component.ts:292-325 | success records the certificate and withdraws the button; a failure keeps both flags and returns IssueErrorMessage of the body |
| CourseDetail.CourseDetailComponent.EnrollInCourse | frontend/src/app/components/course-detail/course-detail.component.ts:105-150 | a request needs a course, a signed-in user and a student; success and a 400 (already enrolled) mark the student enrolled; a 401 sends the user to log in; any other failure reports an error |
| CourseDetail.CourseDetailComponent.RecordAll | frontend/src/app/components/course-detail/course-detail.component.ts:199-220 | the forEach sets one map entry per lesson, in list order, and yields exactly the recorded maps |
| Dashboard.CourseStatus | frontend/src/app/components/dashboard/dashboard.component.ts:241-249 | the status is "not-started" exactly at 0, "completed" exactly at 100, and "in-progress" for every other value |
| Dashboard.CountCompleted | frontend/src/app/components/dashboard/dashboard.component.ts:197-203 | the completed count never exceeds the number of enrollments |
| Dashboard.CountInProgress | frontend/src/app/components/dashboard/dashboard.component.ts:308-313 | the in-progress count never exceeds the number of enrollments |
| Dashboard.CountNotStarted | frontend/src/app/components/dashboard/dashboard.component.ts:314-319 | the not-started count never exceeds the number of enrollments |
| Dashboard.StatusMatchesBuckets | frontend/src/app/components/dashboard/dashboard.component.ts:241-249 | for progress within 0..100, the status names exactly the bucket the enrollment is counted in |
| Dashboard.BucketsPartition | frontend/src/app/components/dashboard/dashboard.component.ts:291-320 | with every progress within 0..100, each enrollment is counted in exactly one bucket: the three counts add up to the number of enrollments |
| Dashboard.CappedProgress | frontend/src/app/components/dashboard/dashboard.component.ts:253-255 | each summand is at most 100, and is non-negative unless the progress itself is negative |
| Dashboard.SumCapped | frontend/src/app/components/dashboard/dashboard.component.ts:253-255 | the sum of the capped progress values is at most 100 per enrollment |
| Dashboard.SumCappedNonNegative | frontend/src/app/components/dashboard/dashboard.component.ts:253-255 | with no negative progress the sum is non-negative |
| Dashboard.OverallProgress | frontend/src/app/components/dashboard/dashboard.component.ts:251-263 | the overall progress never exceeds 100 and is 0 for anyone but a student with enrollments |
| Dashboard.OverallProgressIsMean | frontend/src/app/components/dashboard/dashboard.component.ts:251-263 | for a student with enrollments and no negative progress, the overall progress is the rounded mean of the capped values, already within 0..100, so the final cap never acts |
| Dashboard.CompletionPercentageInRange | frontend/src/app/components/dashboard/dashboard.component.ts:265-268 | with the completed count at most the number of enrollments (1 when the list is missing), the completion percentage lies in 0..100 |
| Dashboard.CompletionPercentage | frontend/src/app/components/dashboard/dashboard.component.ts:265-268 | no completed course reads 0 %, and every course of a non-empty list completed reads 100 % |
| Dashboard.SumCounts | frontend/src/app/components/dashboard/dashboard.component.ts:270-277 | the total of the courses' enrollment counts is non-negative when no count is negative |
| Dashboard.SumCountsCoversEach | frontend/src/app/components/dashboard/dashboard.component.ts:270-277 | with no negative count, the total is at least each course's own count |
| Dashboard.TotalEnrollments | frontend/src/app/components/dashboard/dashboard.component.ts:270-277 | the total enrollments are 0 for anyone but an instructor with a course list |
| Dashboard.AverageStudentsPerCourse | frontend/src/app/components/dashboard/dashboard.component.ts:279-288 | the average is 0 for anyone but an instructor with a course list, and 0 for an empty list |
| Dashboard.AverageNearMean | frontend/src/app/components/dashboard/dashboard.component.ts:279-288 | for an instructor with courses, the one-decimal average is within 0.05 of the exact mean enrollments per course |
| Dashboard.StudentChart | frontend/src/app/components/dashboard/dashboard.component.ts:291-328 | the student chart has one positive slice per non-empty bucket, each bucket's label appears exactly when its count is positive, and the placeholder appears exactly when every bucket is empty |
| Dashboard.StudentChartCountsEveryEnrollment | frontend/src/app/components/dashboard/dashboard.component.ts:291-328 | with every progress within 0..100, the slices of the student chart add up to the number of enrollments |
| Dashboard.StudentChartSum | frontend/src/app/components/dashboard/dashboard.component.ts:291-328 | the slices add up to the total of the three buckets |
| Dashboard.ChartLabel | frontend/src/app/components/dashboard/dashboard.component.ts:372 | a title of at most 20 characters is kept; a longer one becomes its first 20 characters followed by "..." |
| Dashboard.EnrolledOnly | frontend/src/app/components/dashboard/dashboard.component.ts:366-367 | exactly the courses with a positive enrollment count are kept |
| Dashboard.TopCourses | frontend/src/app/components/dashboard/dashboard.component.ts:366-369 | the chart shows at most five courses, each one of the instructor's courses with enrollments |
| Dashboard.TopCoursesAreMostEnrolled | frontend/src/app/components/dashboard/dashboard.component.ts:366-369 | the courses shown are in descending order of enrollments, and any enrolled course left out has no more enrollments than each one shown |
| Dashboard.CourseSlices | frontend/src/app/components/dashboard/dashboard.component.ts:371-382 | slice i has the shortened title of course i, its enrollment count, and the palette colour at position i modulo the palette size |
| Dashboard.InstructorChart | frontend/src/app/components/dashboard/dashboard.component.ts:357-412 | the instructor chart is well formed, has at most five slices and every slice is positive |
| Dashboard.AdminChart | frontend/src/app/components/dashboard/dashboard.component.ts:414-472 | the admin chart is well formed, every slice is positive, and the "Inactive" slice appears exactly when total minus active minus completed is positive |
| Dashboard.ToggleTwice | frontend/src/app/components/dashboard/dashboard.component.ts:493-495 | toggling the chart type always changes it, and toggling twice restores it |
| Dashboard.DashboardComponent.constructor | frontend/src/app/components/dashboard/dashboard.component.ts:65-100 | the dashboard starts without data, with the "Loading..." donut, the zero bar chart and the donut type |
| Dashboard.DashboardComponent.DashboardLoaded | frontend/src/app/components/dashboard/dashboard.component.ts:144-195 | a response stores the data without logging out; an error clears the data, keeps the chart, and logs out exactly on a 401 |
| Dashboard.DashboardComponent.CalculateCompletedCourses | frontend/src/app/components/dashboard/dashboard.component.ts:197-203 | the completed count is the number of enrollments at exactly 100, and stays as it was when there is no list |
| Dashboard.DashboardComponent.UpdateDonutChartData | frontend/src/app/components/dashboard/dashboard.component.ts:474-487 | the chart is rebuilt by the builder for the user's role; any other role changes nothing |
| Dashboard.DashboardComponent.GenerateStudentDonutChartData | frontend/src/app/components/dashboard/dashboard.component.ts:291-355 | the donut and the bar chart are the student chart and bars for the stored data |
| Dashboard.DashboardComponent.ToggleChartType | frontend/src/app/components/dashboard/dashboard.component.ts:493-495 | the chart type flips and nothing else changes |
| Sorting.InsertDesc | frontend/src/app/components/dashboard/dashboard.component.ts:368 | inserting into the sorted list adds exactly that element |
| Sorting.InsertKeepsSortedDesc | frontend/src/app/components/dashboard/dashboard.component.ts:368 | inserting into a list in descending key order keeps it in that order |
| Sorting.SortDesc | frontend/src/app/components/dashboard/dashboard.component.ts:368 | the descending sort returns a permutation of its input in descending key order |
| Sorting.SortDescMembers | frontend/src/app/components/dashboard/dashboard.component.ts:368 | sorting keeps exactly the elements of the input |
| Sorting.SortDescStable | frontend/src/app/components/dashboard/dashboard.component.ts:368 | the sort is stable: the elements with any one key appear in the output in their input order, as JavaScript's sort keeps them |
| Sorting.PrefixDominates | frontend/src/app/components/dashboard/dashboard.component.ts:368-369 | in a descending list, an element past the first m has a key no larger than any of those m |
| Sorting.TopOfSortedDesc | frontend/src/app/components/dashboard/dashboard.component.ts:368-369 | the first n of the descending sort are the n largest: every element left out has a key no larger than each one kept |
| DashboardController.CountRole | backend/src/main/java/com/skillhub/controller/DashboardController.java:90-92 | a role count never exceeds the number of users |
| DashboardController.RoleCountsSum | backend/src/main/java/com/skillhub/controller/DashboardController.java:89-98 | the three role counts add up to at most the number of users, and exactly to it when every user holds one of the three roles |
| DashboardController.AllOneRole | backend/src/main/java/com/skillhub/controller/DashboardController.java:219-220 | when every user holds one role, that role's count is the number of users |
| DashboardController.RecentUsers | backend/src/main/java/com/skillhub/controller/DashboardController.java:63-66 | the recent list holds the five users (fewer if there are fewer) in descending id order, all taken from the users |
| DashboardController.RecentUsersAreNewest | backend/src/main/java/com/skillhub/controller/DashboardController.java:63-66 | a user left out of the recent list has an id no larger than any listed one |
| DashboardController.Summaries | backend/src/main/java/com/skillhub/controller/DashboardController.java:66-74 | each recent user is summarised by its name, email and role, in order |
| DashboardController.TopCourses | backend/src/main/java/com/skillhub/controller/DashboardController.java:79-86 | the top list is the first five courses' titles and instructor names; it fails with the null message exactly when one of those five courses has no instructor, the lazy stream never looking at later ones |
| DashboardController.LessonTotal | backend/src/main/java/com/skillhub/controller/DashboardController.java:105 | the lesson total counts a missing lesson list as 0, is at least each course's count, and is 0 only when every course has no lessons |
| DashboardController.GetAdminDashboard | backend/src/main/java/com/skillhub/controller/DashboardController.java:44-112 | a missing user and a non-admin get a 400 with their messages; an admin gets the user, course and enrollment totals, at most five recent users and top courses, the role distribution with the total, and the lesson total |
| DashboardController.CoursesOf | backend/src/main/java/com/skillhub/controller/DashboardController.java:123 | the instructor's courses are exactly the courses whose instructor is that user |
| DashboardController.CourseIds | backend/src/main/java/com/skillhub/controller/DashboardController.java:143 | the set holds exactly the ids of the given courses |
| DashboardController.CountInCourse | backend/src/main/java/com/skillhub/controller/DashboardController.java:136 | a course's enrollment count never exceeds the number of enrollments |
| DashboardController.CountInCourses | backend/src/main/java/com/skillhub/controller/DashboardController.java:124 | the enrollments of a set of courses never outnumber all enrollments |
| DashboardController.StudentsIn | backend/src/main/java/com/skillhub/controller/DashboardController.java:142-149 | a student id is in the set exactly when some enrollment in one of the courses belongs to that student |
| DashboardController.StudentsAtMostEnrollments | backend/src/main/java/com/skillhub/controller/DashboardController.java:142-149 | there are never more distinct students than enrollments in those courses |
| DashboardController.StudentsInUnion | backend/src/main/java/com/skillhub/controller/DashboardController.java:142-149 | the students of two sets of courses are the union of each set's students |
| DashboardController.WithCounts | backend/src/main/java/com/skillhub/controller/DashboardController.java:127-139 | each course is listed in order with its own enrollment count |
| DashboardController.DistinctStudents | backend/src/main/java/com/skillhub/controller/DashboardController.java:142-149 | the nested loops collect exactly the students enrolled in one of the instructor's courses |
| DashboardController.GetInstructorDashboard | backend/src/main/java/com/skillhub/controller/DashboardController.java:115-165 | a missing user gets 401, a student 400; an instructor or admin gets their courses with counts, the total enrollments and the number of distinct students |
| DashboardController.InstructorTotals | backend/src/main/java/com/skillhub/controller/DashboardController.java:142-149 | the distinct students never outnumber the enrollments, and a student is counted exactly when enrolled in a course whose instructor is the user |
| DashboardController.EnrollmentProgress | backend/src/main/java/com/skillhub/controller/DashboardController.java:186-190 | the progress is the course average truncated to an integer in 0..100, and 0 when the student has no record in the course |
| DashboardController.StudentEnrollments | backend/src/main/java/com/skillhub/controller/DashboardController.java:176-193 | every enrollment of the student is listed with its truncated progress, each listed row comes from one of them, and every progress lies in 0..100 |
| DashboardController.CertificatesOf | backend/src/main/java/com/skillhub/controller/DashboardController.java:196 | the certificates listed are exactly the student's own |
| DashboardController.GetStudentDashboard | backend/src/main/java/com/skillhub/controller/DashboardController.java:168-212 | a missing user gets 401 and an instructor 400; a student or admin gets their enrollments, each with progress in 0..100, and exactly their certificates |
| DashboardController.GetPublicStats | backend/src/main/java/com/skillhub/controller/DashboardController.java:216-243 | the course count is always reported; students and instructors never exceed the users; when the users cannot be read both are 0 |
| AdminPanel.PageCount | frontend/src/app/components/admin-panel/admin-panel.component.ts:268 | the page count is the least number of pages of the page size that hold all the rows, 0 for no rows |
| AdminPanel.Span | frontend/src/app/components/admin-panel/admin-panel.component.ts:490-493 | the loop's pages are the consecutive integers from the start to the end, none when the end is before the start |
| AdminPanel.PageWindow | frontend/src/app/components/admin-panel/admin-panel.component.ts:479-494 | the page numbers are consecutive, ascending and within 1..totalPages, there are min(7, totalPages) of them, and they include the current page whenever it is a real page |
| AdminPanel.MatchingUsers | frontend/src/app/components/admin-panel/admin-panel.component.ts:323-347 | a user is kept exactly when a set term occurs, ignoring the case of the ASCII letters A-Z, in its name or email and a set role equals its role; the original order is kept |
| AdminPanel.SearchedUsersMatch | frontend/src/app/components/admin-panel/admin-panel.component.ts:323-347 | the search as written, term filter then role filter, keeps exactly the users of the combined test, in the same order |
| AdminPanel.WithRoleAppend | frontend/src/app/components/admin-panel/admin-panel.component.ts:338-342 | filtering by role distributes over concatenation |
| AdminPanel.MatchingCourses | frontend/src/app/components/admin-panel/admin-panel.component.ts:408-425 | a course is kept exactly when the term is empty or occurs, ignoring the case of the ASCII letters A-Z, in its title or instructor name; an empty term keeps every course |
| AdminPanel.WithoutId | frontend/src/app/components/admin-panel/admin-panel.component.ts:377-378 | removing an id keeps exactly the entries with another id |
| AdminPanel.WithoutIdTwice | frontend/src/app/components/admin-panel/admin-panel.component.ts:377-378 | removing the same id twice is the same as removing it once |
| AdminPanel.UserCards | frontend/src/app/components/admin-panel/admin-panel.component.ts:383-387 | each user becomes its card, in order |
| AdminPanel.LastUserCards | frontend/src/app/components/admin-panel/admin-panel.component.ts:227-231 | the recent-user cards are the cards of the last five users (all of them when there are fewer), in order |
| AdminPanel.CourseCards | frontend/src/app/components/admin-panel/admin-panel.component.ts:439-442 | each course becomes its card, in order |
| AdminPanel.FirstCourseCards | frontend/src/app/components/admin-panel/admin-panel.component.ts:234-237 | the top-course cards are the cards of the first five courses (all of them when there are fewer), in order |
| AdminPanel.DeleteFailure | frontend/src/app/components/admin-panel/admin-panel.component.ts:393-402 | a failed delete reports "not authorized" exactly on 401, the admin-role message on 403, and the retry message otherwise |
| AdminPanel.QuoteAll | frontend/src/app/components/admin-panel/admin-panel.component.ts:552 | each cell is quoted, in order |
| AdminPanel.QuotedRows | frontend/src/app/components/admin-panel/admin-panel.component.ts:552 | each row becomes its quoted line, in order |
| AdminPanel.CsvLines | frontend/src/app/components/admin-panel/admin-panel.component.ts:552 | a CSV whose cells hold no line break splits into the header line followed by exactly one quoted line per row |
| AdminPanel.CsvLineByLine | frontend/src/app/components/admin-panel/admin-panel.component.ts:552 | the CSV has one line more than there are rows, the first the joined headers, line i+1 the quoted row i |
| AdminPanel.IdCell | frontend/src/app/components/admin-panel/admin-panel.component.ts:544 | the id cell holds no line break |
| AdminPanel.UserRows | frontend/src/app/components/admin-panel/admin-panel.component.ts:542-549 | each user becomes its row of cells, in order |
| AdminPanel.UserCellsNoNewline | frontend/src/app/components/admin-panel/admin-panel.component.ts:542-549 | a user without line breaks in its fields gives cells without line breaks |
| AdminPanel.UsersCsvLines | frontend/src/app/components/admin-panel/admin-panel.component.ts:541-553 | the user export has a header line and then one line per user, when no field holds a line break |
| AdminPanel.EscapeQuotes | frontend/src/app/components/admin-panel/admin-panel.component.ts:560 | escaping never shortens a text |
| AdminPanel.UnescapeEscape | frontend/src/app/components/admin-panel/admin-panel.component.ts:560 | a CSV reader that reads a doubled quote as one recovers the original description |
| AdminPanel.EscapeKeepsNewlines | frontend/src/app/components/admin-panel/admin-panel.component.ts:560 | escaping adds no line break |
| AdminPanel.CourseRows | frontend/src/app/components/admin-panel/admin-panel.component.ts:557-564 | each course becomes its row of cells, in order |
| AdminPanel.CourseCellsNoNewline | frontend/src/app/components/admin-panel/admin-panel.component.ts:557-564 | a course without line breaks in its fields gives cells without line breaks |
| AdminPanel.CoursesCsvLines | frontend/src/app/components/admin-panel/admin-panel.component.ts:555-567 | the course export has a header line and then one line per course, when no field holds a line break |
| AdminPanel.AdminPanelComponent.constructor | frontend/src/app/components/admin-panel/admin-panel.component.ts:20-60 | the panel starts with empty lists and search terms, page 1 of 1 in both tables, and zero totals |
| AdminPanel.AdminPanelComponent.LoadUsers | frontend/src/app/components/admin-panel/admin-panel.component.ts:264-270 | the users are the response, or none, shown unfiltered with their page count; nothing on the course side changes |
| AdminPanel.AdminPanelComponent.LoadCourses | frontend/src/app/components/admin-panel/admin-panel.component.ts:272-278 | the courses are the response, or none, shown unfiltered with their page count; nothing on the user side changes |
| AdminPanel.AdminPanelComponent.SearchUsers | frontend/src/app/components/admin-panel/admin-panel.component.ts:323-347 | the shown users are MatchingUsers of the list, the page count follows and the table goes back to page 1 |
| AdminPanel.AdminPanelComponent.FilterUsersByRole | frontend/src/app/components/admin-panel/admin-panel.component.ts:349-352 | the role filter is set and the search runs again with it |
| AdminPanel.AdminPanelComponent.SearchCourses | frontend/src/app/components/admin-panel/admin-panel.component.ts:408-425 | the shown courses are MatchingCourses of the list, the page count follows and the table goes back to page 1 |
| AdminPanel.AdminPanelComponent.DeleteUser | frontend/src/app/components/admin-panel/admin-panel.component.ts:370-405 | nothing changes unless confirmed; a failure reports DeleteFailure; success removes exactly that id from both user lists and refreshes the count and recent cards |
| AdminPanel.AdminPanelComponent.RemoveUser | frontend/src/app/components/admin-panel/admin-panel.component.ts:377-387 | the user rows and the counts follow the removal of the id |
| AdminPanel.AdminPanelComponent.DropUserRows | frontend/src/app/components/admin-panel/admin-panel.component.ts:377-379 | the id leaves both user lists and the page count follows the shown list |
| AdminPanel.AdminPanelComponent.RefreshUserCards | frontend/src/app/components/admin-panel/admin-panel.component.ts:382-387 | the user total and the recent cards are rebuilt from the remaining users |
| AdminPanel.AdminPanelComponent.DeleteCourse | frontend/src/app/components/admin-panel/admin-panel.component.ts:428-459 | nothing changes unless confirmed; a failure reports DeleteFailure; success removes exactly that id from both course lists and refreshes the count and top cards |
| AdminPanel.AdminPanelComponent.RemoveCourse | frontend/src/app/components/admin-panel/admin-panel.component.ts:433-443 | the course rows and the counts follow the removal of the id |
| AdminPanel.AdminPanelComponent.DropCourseRows | frontend/src/app/components/admin-panel/admin-panel.component.ts:433-435 | the id leaves both course lists and the page count follows the shown list |
| AdminPanel.AdminPanelComponent.RefreshCourseCards | frontend/src/app/components/admin-panel/admin-panel.component.ts:437-443 | the course total and the top cards are rebuilt from the remaining courses |
| AdminPanel.AdminPanelComponent.GoToPage | frontend/src/app/components/admin-panel/admin-panel.component.ts:496-502 | only the chosen table's page counter moves |
| AdminPanel.AdminPanelComponent.GetPageNumbers | frontend/src/app/components/admin-panel/admin-panel.component.ts:479-494 | the loop returns exactly PageWindow of the arguments |
| Courses.Filter | frontend/src/app/components/courses/courses.component.ts:97-112 | a filter never lengthens the list |
| Courses.FilterAppend | frontend/src/app/components/courses/courses.component.ts:97-112 | filtering distributes over concatenation |
| Courses.Keep | frontend/src/app/components/courses/courses.component.ts:97-112 | one catalog filter never lengthens the list |
| Courses.KeepAppend | frontend/src/app/components/courses/courses.component.ts:97-112 | one catalog filter distributes over concatenation |
| Courses.MatchingCourses | frontend/src/app/components/courses/courses.component.ts:91-113 | a course is shown exactly when the term, if set, occurs, ignoring the case of the ASCII letters A-Z, in its title, instructor name, description or category, and the set difficulty and category equal its own |
| Courses.StageAppend | frontend/src/app/components/courses/courses.component.ts:95-113 | each filtering stage distributes over concatenation |
| Courses.StagedAppend | frontend/src/app/components/courses/courses.component.ts:95-113 | the three stages together distribute over concatenation |
| Courses.StagedMatches | frontend/src/app/components/courses/courses.component.ts:91-113 | filtering by search, then difficulty, then category gives exactly the matching courses, in catalog order |
| Courses.SortedCourses | frontend/src/app/components/courses/courses.component.ts:120-134 | the sort is a permutation; "newest" orders by creation time and "popular" by enrollment count, largest first; any other criterion keeps the order |
| Courses.ActiveFilters | frontend/src/app/components/courses/courses.component.ts:144-146 | filters are active exactly when a term, a difficulty or a category is set or the order is not "newest" |
| Courses.CoursesComponent.HasActiveFilters | frontend/src/app/components/courses/courses.component.ts:144-146 | with no active filter the component's filter keeps the whole catalog |
| Courses.ClearedKeepsAll | frontend/src/app/components/courses/courses.component.ts:136-142 | with every filter cleared the catalog shows every course, in order |
| Courses.CoursesComponent.constructor | frontend/src/app/components/courses/courses.component.ts:12-26 | the catalog starts empty and loading, no filter set, newest first, and zero statistics |
| Courses.CoursesComponent.FilterCourses | frontend/src/app/components/courses/courses.component.ts:91-118 | the shown list becomes the matching courses in the chosen order; nothing else changes |
| Courses.CoursesComponent.SortCourses | frontend/src/app/components/courses/courses.component.ts:120-134 | the shown list is sorted by the given criterion, or the current one when none is given, and returned |
| Courses.CoursesComponent.ClearFilters | frontend/src/app/components/courses/courses.component.ts:136-142 | every filter is cleared, the order is newest first, all courses are shown in that order, and no filter is active |
| Courses.CoursesComponent.LoadCourses | frontend/src/app/components/courses/courses.component.ts:39-58 | a response replaces the catalog, is counted and is shown filtered and sorted; a failure empties both lists and sets the error |
| Courses.CoursesComponent.Loaded | frontend/src/app/components/courses/courses.component.ts:43-49 | the received list becomes the catalog, is counted and is shown filtered and sorted |
| Courses.CoursesComponent.LoadFailure | frontend/src/app/components/courses/courses.component.ts:51-56 | a failed load empties both lists and sets the error message |
| Courses.CoursesComponent.LoadStats | frontend/src/app/components/courses/courses.component.ts:60-89 | the public statistics are shown when they arrive, else the admin statistics for an administrator, else zeros, each missing count read as 0 |
| LessonForm.ControlErrors | frontend/src/app/components/lesson-form/lesson-form.component.ts:64-73 | a control name has errors to report exactly when it is one of the form's seven controls |
| LessonForm.FormValidRanges | frontend/src/app/components/lesson-form/lesson-form.component.ts:64-73 | the form is valid exactly when the title has 3..100 UTF-16 code units, the description 10..500, the content at least 50, the duration is set within 1..300 and the order is set and at least 1 |
| LessonForm.FieldLabel | frontend/src/app/components/lesson-form/lesson-form.component.ts:335-346 | a name that is not a control is its own label |
| LessonForm.FieldError | frontend/src/app/components/lesson-form/lesson-form.component.ts:310-333 | the message is empty exactly when the control is untouched, unknown or valid |
| LessonForm.PayloadOf | frontend/src/app/components/lesson-form/lesson-form.component.ts:211-223 | the payload keeps the title, description and video URL, names the uploaded file or "", converts the minutes to seconds (0 when unset) and sends order 1 when none is set |
| LessonForm.ValidPayload | frontend/src/app/components/lesson-form/lesson-form.component.ts:211-223 | a valid form sends a whole number of minutes in seconds, from 60 to 18000, and its own order, at least 1 |
| LessonForm.FormatDuration | frontend/src/app/components/lesson-form/lesson-form.component.ts:348-358 | below an hour the text is the minutes followed by " minutes" |
| LessonForm.DigitsThen | frontend/src/app/components/lesson-form/lesson-form.component.ts:348-358 | the digits of a number followed by a non-digit split back into the number and the rest |
| LessonForm.MinutesRead | frontend/src/app/components/lesson-form/lesson-form.component.ts:348-350 | a duration below an hour is read back from its text |
| LessonForm.HoursRead | frontend/src/app/components/lesson-form/lesson-form.component.ts:355-357 | a whole number of hours is read back from its text |
| LessonForm.HoursMinutesRead | frontend/src/app/components/lesson-form/lesson-form.component.ts:352-357 | hours and remaining minutes are read back from their text |
| LessonForm.MinutesUnits | frontend/src/app/components/lesson-form/lesson-form.component.ts:352-357 | the text after the hours gives back the hours and the remaining minutes |
| LessonForm.FormatDurationReads | frontend/src/app/components/lesson-form/lesson-form.component.ts:348-358 | the duration text determines the minutes: reading it back gives the duration |
| LessonForm.SkipSpaces | frontend/src/app/components/lesson-form/lesson-form.component.ts:360-362 | dropping leading whitespace leaves a suffix that does not start with whitespace |
| LessonForm.Words | frontend/src/app/components/lesson-form/lesson-form.component.ts:360-362 | the split gives at least one piece, no piece holds whitespace, only the first and last can be empty, and the first is non-empty when the text starts with a non-space |
| LessonForm.SkipSpacesNonSpace | frontend/src/app/components/lesson-form/lesson-form.component.ts:360-362 | dropping leading whitespace keeps the text's non-space characters |
| LessonForm.WordsConcat | frontend/src/app/components/lesson-form/lesson-form.component.ts:360-362 | the pieces put back together are the text with its whitespace removed |
| LessonForm.WordCount | frontend/src/app/components/lesson-form/lesson-form.component.ts:360-362 | the word count is at least 1, even for empty content |
| LessonForm.ReadingTime | frontend/src/app/components/lesson-form/lesson-form.component.ts:364-369 | the reading time is the least number of minutes, at 200 words a minute, that covers the word count, and at least 1 |
| LessonForm.LessonFormComponent.constructor | frontend/src/app/components/lesson-form/lesson-form.component.ts:22-46 | the form starts with its initial values, nothing touched, create mode, no ids, not loading, no messages and no uploaded file |
| LessonForm.LessonFormComponent.Init | frontend/src/app/components/lesson-form/lesson-form.component.ts:48-62 | the ids come from the route; edit mode exactly when a lesson id is given; a course that cannot be loaded sets its error |
| LessonForm.LessonFormComponent.IsFieldInvalid | frontend/src/app/components/lesson-form/lesson-form.component.ts:305-308 | a control shows as invalid exactly when it was touched and has an error |
| LessonForm.LessonFormComponent.OnSubmit | frontend/src/app/components/lesson-form/lesson-form.component.ts:182-202 | an invalid form only marks every control touched; a valid one creates or updates the lesson, failing with its message when the needed id is missing, and reports the server's answer |
| LessonForm.LessonFormComponent.CreateLesson | frontend/src/app/components/lesson-form/lesson-form.component.ts:204-243 | without a course id the error is set and nothing is sent; otherwise the payload is posted for the course and success or failure is reported |
| LessonForm.LessonFormComponent.UpdateLesson | frontend/src/app/components/lesson-form/lesson-form.component.ts:245-284 | without a lesson id the error is set and nothing is sent; otherwise the payload is put for the lesson and success or failure is reported |
| LessonForm.LessonFormComponent.OnVideoUploaded | frontend/src/app/components/lesson-form/lesson-form.component.ts:371-390 | the value is remembered as the uploaded file; an http URL becomes the form's video URL and anything else clears it |
| CourseForm.ThumbnailErrors | frontend/src/app/components/course-form/course-form.component.ts:82-88 | a new course without an image preview has a `required` error on its thumbnail, and otherwise none |
| CourseForm.ControlErrors | frontend/src/app/components/course-form/course-form.component.ts:66-80 | only the controls the form builder declares have errors to report |
| CourseForm.FormValidRanges | frontend/src/app/components/course-form/course-form.component.ts:66-88 | the form is valid exactly when the title has 5-100 UTF-16 code units, the description 20-1000, category and difficulty are set, the duration has at least 3 units and a new course has a preview |
| CourseForm.ValidNewCourseSteps | frontend/src/app/components/course-form/course-form.component.ts:298-312 | a valid new-course form passes both the first and the second wizard step |
| CourseForm.FieldLabel | frontend/src/app/components/course-form/course-form.component.ts:247-258 | a field without a label is shown under its own name |
| CourseForm.FieldError | frontend/src/app/components/course-form/course-form.component.ts:236-245 | a message appears exactly when the field is touched and invalid |
| CourseForm.ThumbnailMessage | frontend/src/app/components/course-form/course-form.component.ts:236-258 | a touched thumbnail of a new course without a preview reads "Course Image is required" |
| CourseForm.ImageFileProblem | frontend/src/app/components/course-form/course-form.component.ts:344-356 | a file is accepted exactly when its type starts with `image/` and it is at most 5 MiB; the type is checked first |
| CourseForm.CourseFormComponent.constructor | frontend/src/app/components/course-form/course-form.component.ts:15-24 | the component starts on step 1 of a blank new-course form with no file, preview or error |
| CourseForm.CourseFormComponent.Init | frontend/src/app/components/course-form/course-form.component.ts:54-64 | a route id switches to edit mode for that course; without one nothing changes |
| CourseForm.CourseFormComponent.LoadCourse | frontend/src/app/components/course-form/course-form.component.ts:90-114 | without a course id nothing happens; a loaded course fills the seven fields and the preview; a failure sets the load error |
| CourseForm.CourseFormComponent.HandleFileSelection | frontend/src/app/components/course-form/course-form.component.ts:344-371 | a rejected file only sets the matching error; an accepted one becomes the selection and its data URL the preview, clearing the error |
| CourseForm.CourseFormComponent.OnDrop | frontend/src/app/components/course-form/course-form.component.ts:330-342 | the drag highlight ends; the first dropped file is handled with the type check first; no file changes nothing |
| CourseForm.CourseFormComponent.RemoveImage | frontend/src/app/components/course-form/course-form.component.ts:265-274 | file, preview and thumbnail value are cleared, so a new course's form becomes invalid |
| CourseForm.CourseFormComponent.NextStep | frontend/src/app/components/course-form/course-form.component.ts:277-281 | the wizard moves one step on and never past step 3 |
| CourseForm.CourseFormComponent.PrevStep | frontend/src/app/components/course-form/course-form.component.ts:283-287 | the wizard moves one step back and never before step 1 |
| CourseForm.CourseFormComponent.UpdateStep | frontend/src/app/components/course-form/course-form.component.ts:289-296 | the wizard advances exactly when it is on a complete step 1 or step 2 |
| CourseForm.CourseFormComponent.SelectDifficulty | frontend/src/app/components/course-form/course-form.component.ts:314-317 | the difficulty is set, and a complete step 1 advances to step 2 |
| CourseForm.CourseFormComponent.UploadImage | frontend/src/app/components/course-form/course-form.component.ts:127-143 | without a selected file the thumbnail value (or nothing) is used; with one, the uploaded URL, or the upload error |
| CourseForm.CourseFormComponent.OnSubmit | frontend/src/app/components/course-form/course-form.component.ts:145-223 | a new course without file or preview is refused; an invalid form or a submission in progress only marks every control touched; a valid edit always sends an update of this course; a new course is sent only with a non-empty thumbnail URL; a failed save sets the create or update error |
| CourseForm.CourseFormComponent.Save | frontend/src/app/components/course-form/course-form.component.ts:159-222 | a failed upload or a missing thumbnail stops a new course with its error; an edit keeps the old thumbnail when there is no new one; the request carries the signed-in instructor's id |
| CourseForm.IdOf | frontend/src/app/components/course-form/course-form.component.ts:175-179 | the instructor id is set exactly when someone is signed in |
| CourseForm.EditedThumbnail | frontend/src/app/components/course-form/course-form.component.ts:169-188 | an edit without a new upload keeps the form's thumbnail |
| VideoUpload.UploadRefusal | frontend/src/app/components/video-upload/video-upload.component.ts:43-62 | an upload goes ahead exactly when there is a file, a course id, a session and an instructor or administrator; the missing-information check comes first, then the login check |
| VideoUpload.Progress | frontend/src/app/components/video-upload/video-upload.component.ts:91 | the percentage stays within 0-100 while the loaded bytes do not exceed the total, and is 100 when they reach it |
| VideoUpload.ShareBounds | frontend/src/app/components/video-upload/video-upload.component.ts:91 | a share of at most a hundred times the whole lies in [0, 100] and is 100 at the whole |
| VideoUpload.Emitted | frontend/src/app/components/video-upload/video-upload.component.ts:96-98 | the video URL is emitted, else the file name, else the empty string |
| VideoUpload.UploadErrorText | frontend/src/app/components/video-upload/video-upload.component.ts:110 | the error text is never empty: the server's message first, the default when neither message is set |
| VideoUpload.VideoUploadComponent.constructor | frontend/src/app/components/video-upload/video-upload.component.ts:13-20 | the component starts with its course and lesson inputs, no file, no upload and no error |
| VideoUpload.VideoUploadComponent.OnFileSelected | frontend/src/app/components/video-upload/video-upload.component.ts:28-40 | only an MP4 file is ever selected; any other type clears the selection with the MP4 warning; no file changes nothing |
| VideoUpload.VideoUploadComponent.UploadVideo | frontend/src/app/components/video-upload/video-upload.component.ts:42-86 | a request goes out exactly when no guard refuses; a refusal sets that guard's message; a sent upload starts at 0% |
| VideoUpload.VideoUploadComponent.OnUploadProgress | frontend/src/app/components/video-upload/video-upload.component.ts:89-91 | a progress event sets the rounded percentage |
| VideoUpload.VideoUploadComponent.OnUploadResponse | frontend/src/app/components/video-upload/video-upload.component.ts:92-105 | the upload ends at 100%, the reference is appended to what was emitted and the selection is cleared |
| VideoUpload.VideoUploadComponent.OnUploadError | frontend/src/app/components/video-upload/video-upload.component.ts:108-112 | the upload stops with the error text and the file stays selected |
| VideoUpload.VideoUploadComponent.RemoveFile | frontend/src/app/components/video-upload/video-upload.component.ts:116-123 | the selection and the error are cleared |
| MyCertificates.KeptCoversInput | frontend/src/app/components/certificates/my-certificates.component.ts:44-63 | every course of the input has an entry in the map, and each entry is an input certificate of that course |
| MyCertificates.KeysMatchKept | frontend/src/app/components/certificates/my-certificates.component.ts:45-65 | the map's keys in insertion order are distinct, cover every course of the input and are exactly the map's keys |
| MyCertificates.Snoc | frontend/src/app/components/certificates/my-certificates.component.ts:48-63 | the map and its key order are built one certificate at a time, as the forEach does |
| MyCertificates.Values | frontend/src/app/components/certificates/my-certificates.component.ts:65 | the values are listed in key order, one per key |
| MyCertificates.Deduplicated | frontend/src/app/components/certificates/my-certificates.component.ts:44-66 | one certificate per course, in order of each course's first appearance, each taken from the input, and no course of the input dropped |
| MyCertificates.KeptIsLatest | frontend/src/app/components/certificates/my-certificates.component.ts:53-60 | when every certificate is dated, the one kept for a course has that course's latest date |
| MyCertificates.FirstKeptOnTie | frontend/src/app/components/certificates/my-certificates.component.ts:55-58 | a later certificate with an equal or missing date never replaces the first one of its course |
| MyCertificates.MyCertificatesComponent.constructor | frontend/src/app/components/certificates/my-certificates.component.ts:13-15 | the component starts loading with no certificates and no error |
| MyCertificates.MyCertificatesComponent.LoadCertificates | frontend/src/app/components/certificates/my-certificates.component.ts:27-42 | loading ends; a response is shown de-duplicated; a failure sets the error text and keeps the list already shown |
| MyCertificates.MyCertificatesComponent.RemoveDuplicateCertificates | frontend/src/app/components/certificates/my-certificates.component.ts:44-66 | the forEach that updates the map in place returns exactly the de-duplicated list |
| CertificateService.GetBaseUrl | backend/src/main/java/com/skillhub/service/CertificateService.java:49-81 | a configured URL wins; without one the result is an `http://` address, and without a request it is the local dev server |
| CertificateService.SchemesAbsent | backend/src/main/java/com/skillhub/service/CertificateService.java:64 | removing the schemes from a host with no ':' leaves it as it is |
| CertificateService.RequestHostOfBackendUrl | backend/src/main/java/com/skillhub/service/CertificateService.java:64 | the backend's own address `http://host:8080` yields the bare host |
| CertificateService.BaseUrlFromBackendRequest | backend/src/main/java/com/skillhub/service/CertificateService.java:62-73 | a request on port 8080 from localhost or 127.0.0.1 maps to the dev server's port 4200; any other host to its default port |
| CertificateService.DateStamp | backend/src/main/java/com/skillhub/service/CertificateService.java:118 | the yyyyMMdd stamp is eight digits for a valid day |
| CertificateService.CertificateNumber | backend/src/main/java/com/skillhub/service/CertificateService.java:118-120 | the number is 20 characters: "SH-", eight digits, '-', then eight characters with no lower-case letter |
| CertificateService.Issue | backend/src/main/java/com/skillhub/service/CertificateService.java:87-144 | an existing certificate for the pair is returned; otherwise "Course not found" for a missing course, the not-completed error below 80 %, and a certificate for this student and course exactly when the course exists and the average is at least 80 |
| CertificateService.CheckCertificateEligibility | backend/src/main/java/com/skillhub/service/CertificateService.java:188-200 | eligible exactly when a certificate exists or the average is non-null and at least 80 |
| CertificateService.IssueSucceedsIffEligible | backend/src/main/java/com/skillhub/service/CertificateService.java:87-108 | for an existing course, issuing succeeds exactly when the student is eligible |
| CertificateService.FindAfterAppend | backend/src/main/java/com/skillhub/service/CertificateService.java:91 | the lookup reaches an appended certificate only when nothing before it matches |
| CertificateService.IssueKeepsOnePerPair | backend/src/main/java/com/skillhub/entity/Certificate.java:11-13 | issuing never stores a second certificate for a (student, course) pair |
| CertificateService.AppendKeepsOnePerPair | backend/src/main/java/com/skillhub/entity/Certificate.java:11-13 | appending a certificate for a pair that has none keeps the pairs unique |
| CertificateService.IssueIdempotent | backend/src/main/java/com/skillhub/service/CertificateService.java:91-95 | a second issue, with any clock and UUID, returns the first call's certificate and stores nothing |
| CertificateService.EligibleOnceIssued | backend/src/main/java/com/skillhub/service/CertificateService.java:188-194 | once a certificate is issued, the student counts as eligible for that course |
| CertificateService.CertificateService.constructor | backend/src/main/java/com/skillhub/service/CertificateService.java:26-42 | the service starts with the given certificate table and configured base URL |
| CertificateService.CertificateService.IssueCertificate | backend/src/main/java/com/skillhub/service/CertificateService.java:87-144 | the result is Issue on the old table with the repository's course average and the base URL, and the table grows by exactly the new certificate |
| CertificateAutoIssueService.EnrolledCourseIds | backend/src/main/java/com/skillhub/service/CertificateAutoIssueService.java:90-93 | the list holds exactly the course ids of the student's enrollments |
| CertificateAutoIssueService.Step | backend/src/main/java/com/skillhub/service/CertificateAutoIssueService.java:97-159 | a course that already has a certificate, is below 80 %, or lacks its course or enrollment leaves the table unchanged; otherwise exactly one certificate is appended for it |
| CertificateAutoIssueService.Unfold | backend/src/main/java/com/skillhub/service/CertificateAutoIssueService.java:96-110 | the loop's last pass follows the passes before it |
| CertificateAutoIssueService.StepShape | backend/src/main/java/com/skillhub/service/CertificateAutoIssueService.java:97-109 | a pass leaves the table alone or appends one qualifying certificate of this student for this course |
| CertificateAutoIssueService.AutoIssueOnlyAddsQualifying | backend/src/main/java/com/skillhub/service/CertificateAutoIssueService.java:96-110 | the loop only appends, and only certificates of this student for listed courses that qualify |
| CertificateAutoIssueService.AutoIssueKeepsOnePerPair | backend/src/main/java/com/skillhub/service/CertificateAutoIssueService.java:97-100 | the loop never creates a second certificate for a (student, course) pair |
| CertificateAutoIssueService.StepKeepsFound | backend/src/main/java/com/skillhub/service/CertificateAutoIssueService.java:97-100 | a pass never loses a certificate the table already holds |
| CertificateAutoIssueService.StepFinds | backend/src/main/java/com/skillhub/service/CertificateAutoIssueService.java:103-109 | a pass for a qualifying course leaves a certificate for it |
| CertificateAutoIssueService.AutoIssueCoversQualifying | backend/src/main/java/com/skillhub/service/CertificateAutoIssueService.java:96-159 | after the loop every listed qualifying course has a certificate, whatever failed for the other courses |
| CertificateAutoIssueService.AutoIssueTwiceAddsNothing | backend/src/main/java/com/skillhub/service/CertificateAutoIssueService.java:96-110 | running the loop again over the same courses, with any fresh stamps, issues nothing |
| CertificateAutoIssueService.CertificateAutoIssueService.constructor | backend/src/main/java/com/skillhub/service/CertificateAutoIssueService.java:30-43 | the service starts with the given certificate table and configured base URL |
| CertificateAutoIssueService.CertificateAutoIssueService.CheckAndIssueCertificates | backend/src/main/java/com/skillhub/service/CertificateAutoIssueService.java:88-111 | the table after the loop is AutoIssued over the enrolled course ids with the base URL |
| CertificateAutoIssueService.CertificateAutoIssueService.CheckCourse | backend/src/main/java/com/skillhub/service/CertificateAutoIssueService.java:97-109 | one loop pass changes the table exactly as Step says |
| CertificateAutoIssueService.CertificateAutoIssueService.IssueCertificate | backend/src/main/java/com/skillhub/service/CertificateAutoIssueService.java:116-160 | a certificate is stored when the course and the enrollment exist; otherwise the exception is swallowed and nothing changes |
| CertificateAutoIssueService.CertificateAutoIssueService.AutoIssueCertificatesForAllStudents | backend/src/main/java/com/skillhub/service/CertificateAutoIssueService.java:166-170 | the scheduled batch changes nothing |
| VideoController.Long | backend/src/main/java/com/skillhub/controller/VideoController.java:97 | a `long` result stays within the 64-bit range and equals the exact value when that is in range |
| VideoController.ParseRange | backend/src/main/java/com/skillhub/controller/VideoController.java:82-95 | a header that does not start with "bytes=" selects the whole file |
| VideoController.ParseHeader | backend/src/main/java/com/skillhub/controller/VideoController.java:87-95 | a "bytes=" header selects the span of the pieces after the prefix, split on '-' |
| VideoController.SplitTwo | backend/src/main/java/com/skillhub/controller/VideoController.java:88 | a text of two '-'-free pieces, the second non-empty, splits into those two pieces |
| VideoController.SplitOpen | backend/src/main/java/com/skillhub/controller/VideoController.java:88 | a trailing '-' is dropped by the split, leaving one piece |
| VideoController.ClosedPieces | backend/src/main/java/com/skillhub/controller/VideoController.java:88 | two numbers joined by '-' split back into their decimal texts |
| VideoController.SpanOfNumbers | backend/src/main/java/com/skillhub/controller/VideoController.java:89-94 | the pieces of two numbers in `long` range select the span between them |
| VideoController.ClosedRange | backend/src/main/java/com/skillhub/controller/VideoController.java:82-95 | "bytes=a-b" selects bytes a through b, whatever the file's length |
| VideoController.OpenRange | backend/src/main/java/com/skillhub/controller/VideoController.java:82-95 | "bytes=a-" selects from byte a to the last byte |
| VideoController.SuffixRangeFails | backend/src/main/java/com/skillhub/controller/VideoController.java:88-91 | a suffix range "bytes=-n" has an empty first piece, which fails to parse as a number |
| VideoController.ContentType | backend/src/main/java/com/skillhub/controller/VideoController.java:41-44 | a file whose type cannot be probed is served as "video/mp4" |
| VideoController.GetVideo | backend/src/main/java/com/skillhub/controller/VideoController.java:29-59 | a missing file is a 404; otherwise the whole file with 200, its content type and its length |
| VideoController.StreamVideo | backend/src/main/java/com/skillhub/controller/VideoController.java:61-114 | a missing file is a 404; without a Range header the whole file with 200; with one a 206, or a parse failure exactly when the header does not parse |
| VideoController.Partial | backend/src/main/java/com/skillhub/controller/VideoController.java:97-103 | the 206 answer carries the content type, "bytes start-end/length" and, without overflow, end - start + 1 bytes |
| VideoController.StreamParsed | backend/src/main/java/com/skillhub/controller/VideoController.java:82-103 | a Range header that parses is answered with the 206 for its span |
| VideoController.RangeLength | backend/src/main/java/com/skillhub/controller/VideoController.java:82-103 | for a closed range within the file, the 206 counts the bytes from start to end inclusive |
| VideoController.OpenRangeLength | backend/src/main/java/com/skillhub/controller/VideoController.java:82-103 | an open range within the file runs to the last byte |
| VideoController.Extension | backend/src/main/java/com/skillhub/controller/VideoController.java:127-130 | the extension is ".mp4" without a name or a '.', else the name's ending from its last '.' |
| VideoController.UploadVideo | backend/src/main/java/com/skillhub/controller/VideoController.java:116-150 | an empty file is refused with "File is empty"; a file is stored exactly when it is non-empty and at most 500 MiB, under the UUID plus the extension and with its size |
| S3Service.StripSlash | backend/src/main/java/com/skillhub/service/S3Service.java:87 | one leading '/' is removed and nothing else changes |
| S3Service.Locate | backend/src/main/java/com/skillhub/service/S3Service.java:84-103 | a host with ".s3." names the bucket before its first ".s3." and the key is the path without its '/'; a host that is not S3 keeps the videos bucket; a path-style URL without a second '/' falls back to the videos bucket |
| S3Service.GeneratePresignedUrl | backend/src/main/java/com/skillhub/service/S3Service.java:73-125 | a malformed URL, an empty key or a failing presigner leave the URL as it was; otherwise the result is the presigned URL of the located object |
| S3Service.GenerateFileName | backend/src/main/java/com/skillhub/service/S3Service.java:127-133 | the name is the UUID followed by the original name's suffix from its last '.', and just the UUID without one |
| S3Service.UploadThumbnail | backend/src/main/java/com/skillhub/service/S3Service.java:33-51 | the object goes to the thumbnails bucket under "thumbnails/" with the generated name |
| S3Service.UploadVideo | backend/src/main/java/com/skillhub/service/S3Service.java:53-71 | the object goes to the videos bucket under "videos/" with the generated name |
| S3Service.FirstSlash | backend/src/main/java/com/skillhub/service/S3Service.java:90 | the first '/' of a text whose first segment has none comes right after that segment |
| S3Service.SplitAtSlash | backend/src/main/java/com/skillhub/service/S3Service.java:90 | a split with a limit peels off a '/'-free first segment and splits the rest with one piece fewer |
| S3Service.NoOccurrenceAt | backend/src/main/java/com/skillhub/service/S3Service.java:86 | a text cannot occur where its first character is missing |
| S3Service.VirtualHostedRoundTrip | backend/src/main/java/com/skillhub/service/S3Service.java:84-87 | a virtual-hosted URL "bucket.s3.region/key" gives back its bucket and key |
| S3Service.PathStyleRoundTrip | backend/src/main/java/com/skillhub/service/S3Service.java:88-93 | a path-style URL "s3.region/bucket/key" gives back its bucket and key |
| S3Service.BucketOnlyUnchanged | backend/src/main/java/com/skillhub/service/S3Service.java:88-109 | a path-style URL naming only a bucket has no key and is returned unsigned |
| S3Service.UploadedVideoPresigns | backend/src/main/java/com/skillhub/service/S3Service.java:53-119 | an uploaded video, addressed by its virtual-hosted URL, is located as the very object written, so a working presigner signs it |
| UploadController.Refusal | backend/src/main/java/com/skillhub/controller/UploadController.java:24-35 | a file passes exactly when it is non-empty, its content type has the kind's prefix and it is within the size limit; the checks run empty, then type, then size |
| UploadController.UploadFile | backend/src/main/java/com/skillhub/controller/UploadController.java:21-77 | a refused file gets its message; an accepted one is uploaded exactly when the store succeeds, with the URL under the kind's field and the client's file name, and a store failure reads "Error uploading file: " plus its message |
| UploadController.UploadImage | backend/src/main/java/com/skillhub/controller/UploadController.java:21-48 | an uploaded image is a non-empty "image/" file of at most 5 MiB, answered under "imageUrl" |
| UploadController.UploadVideo | backend/src/main/java/com/skillhub/controller/UploadController.java:50-77 | an uploaded video is a non-empty "video/" file of at most 500 MiB, answered under "videoUrl" |
| UploadController.CourseFormImagesPass | backend/src/main/java/com/skillhub/controller/UploadController.java:24-35 | a non-empty picture the course form accepts is accepted by the server too |
| UploadController.Mp4PassesTypeCheck | backend/src/main/java/com/skillhub/controller/UploadController.java:57-64 | every MP4 video within the size limit, which is all the upload component sends, passes the server's checks |
| UserService.FindByEmail | backend/src/main/java/com/skillhub/service/UserService.java:65-67 | the row found carries that email and is stored; nothing is found exactly when no row has it |
| UserService.IndexOfId | backend/src/main/java/com/skillhub/service/UserService.java:88-91 | the position found holds that id; -1 exactly when no row has it |
| UserService.GetUserById | backend/src/main/java/com/skillhub/service/UserService.java:88-91 | the stored row with that id, or "User not found with id: <id>" exactly when there is none |
| UserService.GetCurrentUser | backend/src/main/java/com/skillhub/service/UserService.java:69-73 | the stored row whose email is the authenticated name, or "User not found" exactly when there is none |
| UserService.Overwrite | backend/src/main/java/com/skillhub/service/UserService.java:110-118 | each field given replaces the stored one, the others and the id and password stay |
| UserService.OverwriteIdempotent | backend/src/main/java/com/skillhub/service/UserService.java:106-121 | an edit that gives nothing leaves the user as it was, and applying an edit twice is applying it once |
| UserService.ProfileEdit | backend/src/main/java/com/skillhub/service/UserService.java:123-144 | the edit fails exactly when a new email belongs to another user; otherwise a non-empty, different name or email is taken and role and password never change |
| UserService.ProfileEditKeepsEmailsUnique | backend/src/main/java/com/skillhub/service/UserService.java:132-139 | the profile edit of a stored user keeps emails distinct in a table whose ids and emails are distinct |
| UserService.OverwriteMayDuplicateEmail | backend/src/main/java/com/skillhub/service/UserService.java:113-115 | the administrator's edit checks no uniqueness, so it can give one user another's email |
| UserService.WithoutId | backend/src/main/java/com/skillhub/service/UserService.java:94-104 | the table without the row of that id keeps every other row and nothing more |
| UserService.UserService.constructor | backend/src/main/java/com/skillhub/service/UserService.java:25-29 | the service starts with no users and the given role table |
| UserService.UserService.RegisterUser | backend/src/main/java/com/skillhub/service/UserService.java:40-55 | a stored email is refused first, then an unknown role; otherwise exactly one row with a fresh id is added, and distinct emails stay distinct |
| UserService.UserService.DeleteUser | backend/src/main/java/com/skillhub/service/UserService.java:93-104 | the row with that id is removed; an unknown id is "User not found with id: <id>" and nothing changes |
| UserService.UserService.UpdateUser | backend/src/main/java/com/skillhub/service/UserService.java:106-121 | an unknown id is an error and nothing changes; otherwise only that row is replaced by its edit |
| UserService.UserService.UpdateUserProfile | backend/src/main/java/com/skillhub/service/UserService.java:123-144 | an unknown id is an error; otherwise the row is replaced by the profile edit when it succeeds, and distinct emails stay distinct |
| UserService.WithoutIdKeepsValid | backend/src/main/java/com/skillhub/service/UserService.java:94-104 | removing a row keeps the ids distinct and below the next id |
| EnrollmentService.IsCurrentUserEnrolledInCourse | backend/src/main/java/com/skillhub/service/EnrollmentService.java:75-82 | true exactly when the current user is known and enrolled in the course; a failed lookup gives false |
| EnrollmentService.EnrollmentsByStudent | backend/src/main/java/com/skillhub/service/EnrollmentService.java:44-51 | the list holds exactly the student's enrollments |
| EnrollmentService.EnrollmentsByCourse | backend/src/main/java/com/skillhub/service/EnrollmentService.java:61-63 | the list holds exactly the course's enrollments |
| EnrollmentService.GetEnrollmentsByCourseId | backend/src/main/java/com/skillhub/service/EnrollmentService.java:65-69 | an unknown course is "Course not found with id: <id>"; otherwise exactly the course's enrollments |
| EnrollmentService.OnlyRowOfPair | backend/src/main/java/com/skillhub/service/EnrollmentService.java:31-33 | with one row per pair, a student's row in a course is the one the lookup by pair finds |
| EnrollmentService.EnrollmentService.constructor | backend/src/main/java/com/skillhub/service/EnrollmentService.java:19-23 | the service starts with no enrollments |
| EnrollmentService.EnrollmentService.EnrollStudent | backend/src/main/java/com/skillhub/service/EnrollmentService.java:25-42 | the course must exist, then the current user be known, then the pair be new; only then is exactly one row added with progress 0, and every refusal changes nothing |
| EnrollmentService.EnrollTwice | backend/src/main/java/com/skillhub/service/EnrollmentService.java:31-33 | enrolling twice in a row refuses the second attempt with "You are already enrolled in this course" and adds only the first row |
| LessonController.CanAccess | backend/src/main/java/com/skillhub/controller/LessonController.java:39-48 | instructors and administrators may always access a course's videos, anyone else exactly when enrolled in it |
| LessonController.PresignField | backend/src/main/java/com/skillhub/controller/LessonController.java:53-62 | a link is presigned exactly when the viewer has access and it is an http(s) URL; otherwise it is shown as stored |
| LessonController.Shown | backend/src/main/java/com/skillhub/controller/LessonController.java:51-63 | only the two link fields of a shown lesson can differ from the stored row, and without access it is the stored row |
| LessonController.PresignAll | backend/src/main/java/com/skillhub/controller/LessonController.java:51-64 | the loop rewrites every lesson's links in place, lesson by lesson, and nothing else |
| LessonController.GetLessonsByCourse | backend/src/main/java/com/skillhub/controller/LessonController.java:32-70 | an unknown user is "Error: " plus the lookup's message; otherwise every lesson of the course, in order, with its links presigned for a viewer with access |
| LessonController.RoleGate | backend/src/main/java/com/skillhub/controller/LessonController.java:119-123 | create, update and delete go ahead exactly for a known instructor or administrator; others get "Access denied. Instructor role required." |
| LessonController.CopyEdits | backend/src/main/java/com/skillhub/controller/LessonController.java:145-151 | the update copies title, description, both links, duration and order from the edit; id and course stay |
| LessonController.CopyEditsIdempotent | backend/src/main/java/com/skillhub/controller/LessonController.java:145-152 | copying an edit twice is copying it once, and copying a row onto itself changes nothing |
| LessonController.IndexOfLesson | backend/src/main/java/com/skillhub/controller/LessonController.java:144 | the position found is the first row with that id; -1 exactly when there is none |
| LessonController.WithoutLesson | backend/src/main/java/com/skillhub/controller/LessonController.java:169 | the table after deleting keeps every row of another id and nothing more |
| LessonController.EnrolledStudentGetsSignedVideo | backend/src/main/java/com/skillhub/controller/LessonController.java:86-106 | an enrolled student asking for a lesson whose link is a stored object's URL gets that object's presigned URL |
| LessonController.LessonController.constructor | backend/src/main/java/com/skillhub/controller/LessonController.java:26-30 | the controller starts with the given lesson table |
| LessonController.LessonController.GetLessonById | backend/src/main/java/com/skillhub/controller/LessonController.java:72-114 | an unknown id is a 404, before the user is looked up; then an unknown user is an error; otherwise the lesson with links presigned when the user may access its course |
| LessonController.LessonController.CreateLesson | backend/src/main/java/com/skillhub/controller/LessonController.java:116-133 | a refused user changes nothing; otherwise the body is stored as exactly one new row of the given course |
| LessonController.LessonController.UpdateLesson | backend/src/main/java/com/skillhub/controller/LessonController.java:135-158 | a refused user or an unknown id changes nothing (the latter a 404); otherwise only that row takes the edit |
| LessonController.LessonController.DeleteLesson | backend/src/main/java/com/skillhub/controller/LessonController.java:160-174 | a refused user changes nothing; otherwise the rows of that id go and "Lesson deleted successfully" is answered; no row is ever added |
| CourseService.Summary | backend/src/main/java/com/skillhub/service/CourseService.java:42-89 | a summary keeps the course's id, title, description and thumbnail; the instructor is the stored one, or the unknown instructor when there is none (with lessons) or the reference is dangling (with no lessons); a failed lesson lookup counts as none |
| CourseService.GetAllCourses | backend/src/main/java/com/skillhub/service/CourseService.java:36-96 | one summary per stored course, in table order; the empty list when the table cannot be read |
| CourseService.Summaries | backend/src/main/java/com/skillhub/service/CourseService.java:41-90 | the stream maps each course, in order, to its summary |
| CourseService.Permission | backend/src/main/java/com/skillhub/service/CourseService.java:152-156 | only the course's own instructor or an administrator passes; a course without instructor fails for everyone |
| CourseService.IndexOfCourse | backend/src/main/java/com/skillhub/service/CourseService.java:149-150 | the position found holds that id; -1 exactly when no row has it |
| CourseService.AdminEdit | backend/src/main/java/com/skillhub/service/CourseService.java:199-207 | each field given replaces the stored one; id, thumbnail and lessons stay |
| CourseService.AdminEditIdempotent | backend/src/main/java/com/skillhub/service/CourseService.java:195-210 | the edit that gives nothing changes nothing, and applying an edit twice is applying it once |
| CourseService.WithoutCourse | backend/src/main/java/com/skillhub/service/CourseService.java:185 | the table after deleting keeps every course of another id and nothing more |
| CourseService.WithoutCertificatesOf | backend/src/main/java/com/skillhub/service/CourseService.java:179 | every certificate of the course goes, every other one stays |
| CourseService.CourseService.constructor | backend/src/main/java/com/skillhub/service/CourseService.java:24-34 | the service starts with the given course and certificate tables, the identity generator ahead of every stored id (`Valid`), which creating, updating and deleting courses keep |
| CourseService.CourseService.CreateCourse | backend/src/main/java/com/skillhub/service/CourseService.java:102-112 | an unknown user changes nothing; otherwise exactly one course owned by the current user is added, with no lessons |
| CourseService.CourseService.UpdateCourse | backend/src/main/java/com/skillhub/service/CourseService.java:148-163 | "Course not found", an unknown user or someone else's course change nothing; otherwise only title, description and thumbnail of that course are replaced, so a success always comes from its instructor or an administrator |
| CourseService.CourseService.DeleteCourse | backend/src/main/java/com/skillhub/service/CourseService.java:165-192 | the same checks; on success the course and all of its certificates are gone and every other row stays |
| CourseService.CourseService.AdminUpdateCourse | backend/src/main/java/com/skillhub/service/CourseService.java:195-210 | "Course not found" changes nothing; otherwise only that course takes the partial edit |
| ErrorInterceptor.MatchesAny | frontend/src/app/interceptors/error.interceptor.ts:94 | true exactly when the URL contains one of the endpoints |
| ErrorInterceptor.IsPublicEndpoint | frontend/src/app/interceptors/error.interceptor.ts:86-95 | a URL is public exactly when it contains one of the three public endpoints |
| ErrorInterceptor.Intercept | frontend/src/app/interceptors/error.interceptor.ts:18-84 | the error is always rethrown; only a 401 outside the public and graceful lists logs out and goes to /login; each status gets its message and toast, with 400, 409, 422 and unlisted statuses preferring the body's message; a client-side error shows the network toast |
| ErrorInterceptor.InterceptAsWritten | frontend/src/app/interceptors/error.interceptor.ts:34-50 | as written, a 401 logs out exactly when the URL is neither public nor on the dashboard-and-profile list |
| ErrorInterceptor.InterceptCorrected | frontend/src/app/interceptors/error.interceptor.ts:97-114 | corrected, a URL of the profile endpoint is also left to its page |
| ErrorInterceptor.OnlyProtected401LogsOut | frontend/src/app/interceptors/error.interceptor.ts:34-50 | only a server-side 401 ends the session, and never one on a public endpoint |
| ErrorInterceptor.MyCoursesIsPublic | frontend/src/app/interceptors/error.interceptor.ts:86-114 | the last dashboard entry never decides anything: a URL containing it is already public |
| ErrorInterceptor.NotPublic | frontend/src/app/interceptors/error.interceptor.ts:88-94 | a URL with none of 'c', 's' and 'v' matches no public endpoint |
| ErrorInterceptor.ProfileUpdateLogsOut | frontend/src/app/interceptors/error.interceptor.ts:34-50 | as written, a 401 from the profile update at `origin + "/api/auth/profile"`, for any origin without the letter 'i', logs the user out and leaves for /login |
| ErrorInterceptor.LocalProfileUpdateLogsOut | frontend/src/app/services/auth.service.ts:155 | the profile update against the development origin http://localhost:8080 logs out on a 401 |
| ErrorInterceptor.ProfileUpdateKeepsSession | frontend/src/app/interceptors/error.interceptor.ts:97-114 | corrected, a 401 on any profile URL keeps the session and shows no toast |
| Login.ErrorMessage | frontend/src/app/components/login/login.component.ts:48-64 | a non-empty text body is shown verbatim; otherwise 401, 0 and other statuses have their fixed messages; picking throws exactly on a 400 whose body is a JSON object |
| Login.CredentialsBranchUnreachable | frontend/src/app/components/login/login.component.ts:49-54 | the credentials message is never chosen by its own branch: it appears only when the server sent exactly that text |
| Login.EmptyBadRequest | frontend/src/app/components/login/login.component.ts:51-57 | a 400 with no body or an empty text is an invalid request |
| Login.ErrorMessageCorrected | frontend/src/app/components/login/login.component.ts:48-64 | corrected, every message the original picks is kept, and a 400 with a JSON object body is an invalid request instead of a throw |
| Login.OnSubmit | frontend/src/app/components/login/login.component.ts:32-71 | an invalid form sends nothing and changes nothing; success welcomes the user (or "User") and goes to /dashboard; a failure shows the picked message and the login-error toast exactly when picking does not throw; loading always ends |
| Login.OnSubmitCorrected | frontend/src/app/components/login/login.component.ts:32-71 | corrected, nothing throws, every failure shows its message and the toast, and every run the original finishes is unchanged |
| Login.JsonBadRequestThrows | frontend/src/app/components/login/login.component.ts:51-57 | as written, a 400 with a JSON object body throws and shows no toast; corrected, it reads as an invalid request |
| AuthService.UserOf | frontend/src/app/services/auth.service.ts:39-50 | the stored and published user carries the response's id, name, email and role |
| AuthService.AuthService.constructor | frontend/src/app/services/auth.service.ts:26-32 | the subject starts from the user in storage, if any, and shows what storage holds |
| AuthService.AuthService.Login | frontend/src/app/services/auth.service.ts:34-54 | a successful login stores the token and the user and publishes that user |
| AuthService.AuthService.Register | frontend/src/app/services/auth.service.ts:56-74 | a successful registration stores and publishes exactly as a login |
| AuthService.AuthService.Logout | frontend/src/app/services/auth.service.ts:76-82 | both storage keys are removed and no user is published |
| AuthService.AuthService.IsAuthenticated | frontend/src/app/services/auth.service.ts:88-104 | an empty subject is first filled from storage; the answer is true exactly when a non-empty token is stored and a user is published; storage is untouched |
| AuthService.AuthService.UpdateProfile | frontend/src/app/services/auth.service.ts:138-162 | the returned user is stored and published and the token stays |
| AuthService.HasAnyRoleIsSomeHasRole | frontend/src/app/services/auth.service.ts:112-120 | hasAnyRole holds exactly when hasRole holds for some role of the list, and the empty list admits no one |
| AuthService.AuthService.HasRole | frontend/src/app/services/auth.service.ts:112-115 | holding a role means a user is logged in and passes hasAnyRole with that one role |
| AuthService.AuthService.HasAnyRole | frontend/src/app/services/auth.service.ts:117-120 | holding any of the roles means a user is logged in and the list is not empty |
| AuthService.AuthService.IsLoggedIn | frontend/src/app/services/auth.service.ts:134-136 | with the subject in step with storage, a user is logged in exactly when a user is stored |
| AuthService.AuthenticatedIsLoggedIn | frontend/src/app/services/auth.service.ts:88-136 | a positive isAuthenticated leaves a user published, so isLoggedIn follows; it is positive exactly with a non-empty token and a published or stored user |
| AuthService.LoginThenCheck | frontend/src/app/services/auth.service.ts:34-104 | after a login the session is authenticated exactly when the response's token is non-empty, and the user has the response's role |
| AuthService.LogoutThenCheck | frontend/src/app/services/auth.service.ts:76-136 | after a logout no check passes: not authenticated, not logged in and no role |
| RoleGuard.CanActivate | frontend/src/app/guards/role.guard.ts:14-56 | the guard passes exactly when someone is signed in, is not an administrator on a dashboard URL, and the route lists no roles or the user's role; a refused user goes to /login, /admin for an administrator, /dashboard for anyone else |
| RoleGuard.GuardIsHasAnyRole | frontend/src/app/guards/role.guard.ts:38-53 | on a route with a non-empty role list the guard is the session's hasAnyRole, except that an administrator is held back on a dashboard URL |
| RoleGuard.AuthoringRoutes | frontend/src/app/app-routing.module.ts:38-41 | the course and lesson authoring routes admit exactly instructors and administrators, and send a student to /dashboard |
| RoleGuard.NoCrossRedirect | frontend/src/app/guards/role.guard.ts:29-52 | the guard never sends an administrator to /dashboard, nor anyone else to /admin |
| AuthGuard.CanActivate | frontend/src/app/guards/auth.guard.ts:14-38 | the guard passes exactly when the session is authenticated and it is not an administrator opening the dashboard; otherwise /login, or /admin for that administrator |
| AuthGuard.Guard | frontend/src/app/guards/auth.guard.ts:14-38 | on the session, the guard passes exactly with a non-empty stored token and a published or stored user who is not an administrator opening the dashboard; a pass leaves the user logged in and storage untouched |
| AuthGuard.AfterLogin | frontend/src/app/guards/auth.guard.ts:14-38 | right after a login with a non-empty token, every route but an administrator's dashboard passes |

## Left out

Outside the model throughout:
- HTTP calls, observables, toasts and router navigation are left out. A handler receives its response as a parameter, and a navigation is returned as a value.
- The DOM, the video element's events, fullscreen, keyboard handling, the FileReader, Blob downloads, `setTimeout` delays and chart option objects are left out.
- The e-mail notifications and console logging are left out. Neither changes an outcome.
- Password hashing, JWT handling and the security context are left out. The authenticated user is a parameter.
- Clocks, UUIDs and the request context are left out. `LocalDateTime.now`, `Date.now`, `UUID.randomUUID` and the servlet request URL are parameters.
- Concurrency is left out. This covers the thread that triggers automatic issuing at `VideoProgressService.java:75-77`, the hourly schedule, and interleaved requests. The automatic loop is modelled on its own as `CertificateAutoIssueService`.
- Database cascades are left out. Deleting a user or a course cascades to lessons, enrollments and progress rows, and only the certificates that `deleteCourse` removes by hand are modelled.
- The database's unique email column rejecting a duplicate at save is not modelled, so `UserService.OverwriteMayDuplicateEmail` shows the service itself does not check.
- Floating point is left out. Media times and client percentages are exact reals, and server percentages are exact integers in hundredths.
- `formatFileSize` in the upload widget is left out, because it uses `Math.log`.
- The JVM's own exception texts are left out. The message of a null dereference is the constant "null".
- A route parameter of 0 stands for a missing one.

- Strings.ToLower: `toLowerCase` is modelled on the ASCII letters A-Z only. JavaScript also lower-cases every other cased letter, such as 'É' to 'é', and the model leaves those unchanged.
- AdminPanel.MatchingUsers: the search ignores case for A-Z only, through `Strings.ToLower`. A name "ÉMILE" searched as "émile" is kept by the component and dropped by the model.
- AdminPanel.MatchingCourses: the search ignores case for A-Z only, through `Strings.ToLower`.
- Courses.MatchingCourses: the search ignores case for A-Z only, through `Strings.ToLower`.
- Dashboard.ChartLabel: the 20-character test and the 20-character prefix count characters, not UTF-16 code units. A title with characters beyond the Basic Multilingual Plane is cut at a different place, and a cut through a surrogate pair cannot be expressed on Unicode scalar values.

By component:
- VideoProgressEntity.VideoProgress: `lastWatchedAt` and the clock are not modelled.
- VideoProgressRepository: `findByLessonId` (lines 21-22) is left out. Nothing in the core reads it.
- VideoProgressService: the getters at `VideoProgressService.java:82-96` are left out. They only forward to the repository.
- LessonDetail:
  - `loadCourse` only stores the course, so it is not modelled.
  - `refreshLessonCompletionStatus` only calls `loadVideoProgress`, so it is not modelled.
  - `navigateToCourse` is navigation only.
  - Both role branches of `checkLessonAccessibility` call `loadLessonData`, which is modelled.
- VideoPlayer:
  - `setupVideoElement`, `togglePlay`, `seekTo`, `onProgressBarClick`, `toggleFullscreen` and `onKeyDown` are DOM wiring.
  - `onPlay`, `onPause` and `onEnded` only set display flags.
  - The blob URL from `URL.createObjectURL` is an input.
- CourseDetail:
  - `checkEnrollmentStatus` and `loadCourse` only store what the server answered.
  - `checkCourseCompletion` only shows a delayed toast.
  - `formatDuration` is display only.
  - `editCourse`, `addLesson`, `editLesson`, `viewCertificate` and the redirect after issuing are navigation.
  - `deleteLesson` is a confirm dialog plus a reload.
- Dashboard:
  - The delayed re-render in `updateDonutChartData` is left out.
  - `getCurrentDate`, `hasNoData`, `getTotalCourses`, `getRoleBasedLabel`, `getProgressStat`, `getProgressLabel` and `updateBarChartData` only format what the modelled members compute.
  - `deleteCourse`, `continueCourse`, `editCourse`, `viewCourse`, `viewCourseDetails` and `createCourse` are HTTP calls or navigation.
- Dashboard.AverageStudentsPerCourse: the division and `Math.round` are taken on exact reals, so binary floating-point error near a tie is not modelled.
- DashboardController: the `(int)` cast of the course average is taken on exact values. The administrator's sample data in the client is mock data.
- AdminPanel:
  - `loadStats` falls back to hard-coded sample figures, including the constant 38, so it is mock data.
  - `loadAnalytics`, `changeAnalyticsPeriod` and `convertAnalyticsToCSV` work on mock analytics.
  - `loadPlatformStats`, `generateUserGrowthChart`, `generateEnrollmentChart` and `calculateEnrollmentRate` are chart and floating-point display.
  - `getUserRoleBadgeClass`, `formatCurrency`, `formatDate`, `setActiveTab`, `refreshData` and `loadAdminData` are display or reload only.
  - `toggleUserStatus` only logs.
  - The answer of `confirm()` is an input.
  - The CSV download link is left out; the CSV text is modelled.
- Courses: `setViewMode`, `trackByCourseId`, `onEnroll` and `onViewCourse` are view or navigation only. `new Date(text).getTime()` is an input.
- LessonForm:
  - `loadLesson` fills the form with hard-coded mock data (lines 90-180), so it is not modelled.
  - The `videoFilename` patch in `onVideoUploaded` names no form control, so Angular drops it.
  - `onCancel` and `onPreview` are navigation and logging only.
- CourseForm: `onCancel` is navigation. `onFileSelected` hands its file to `handleFileSelection`, which is modelled.
- CourseForm.CourseFormComponent.UpdateStep: the 300 ms delay before the step changes is not modelled. The step changes at once.
- AuthService:
  - The HTTP calls are left out; each method models what happens with a successful response.
  - The `/home` navigation on logout is left out.
  - JSON parse errors of a corrupt stored user are left out; the stored user is modelled by its parsed value.
  - Other browser tabs sharing local storage are left out.
- AuthGuard and RoleGuard: the navigation a guard starts is returned as `navigateTo`.
- ErrorInterceptor: the observable that rethrows is modelled by the `rethrown` field. The navigation inside the logout it triggers is subsumed by the redirect to /login.
- Login:
  - Whether the email passes `Validators.email` is an input.
  - A JSON array as an error body is not modelled.
  - The HTTP call is an input.
- VideoController:
  - An `IOException` from `probeContentType` is not modelled.
  - The answer `Crash` stands for the uncaught `NumberFormatException` of `Long.parseLong`.
  - The copy to disk is left out.
- S3Service: `java.net.URL` parsing, `putObject`, `getUrl` and the presigner are inputs.
- CertificateService:
  - `getMyCertificates`, `getCertificateByNumber`, `getCertificateById`, `getCertificatesByCourse` and `getCourseCompletionPercentage` only forward to the repositories.
  - Java's `Double.toString` text of the average inside the not-completed message is an input.
- UserService:
  - `loginUser` is Spring Security.
  - `getAllUsers` and `getCurrentUserOptional` only forward to the repository.
- EnrollmentService: `getTotalEnrollments`, `getEnrollmentsByCourses` and `getEnrollmentCountByCourse` are repository counts. `enrolledAt` is the clock.
- CourseService:
  - `getAllCoursesAsEntities`, `getCourseById`, `getCourseByIdPublic` and `getCoursesByInstructor` only forward to the repository or load lessons.
  - The `RuntimeException` that wraps a failed delete is left out.
- LessonController:
  - A user without a role is left out.
  - An `id` in a create request's body is left out; JPA would merge it.
  - A null `lessonOrder` is left out.
  - `deleteById` on a missing id is taken to delete nothing.

## Findings

| source | as written | input that shows it | evidently intended | confidence | as-written member | corrected member |
|---|---|---|---|---|---|---|
| frontend/src/app/interceptors/error.interceptor.ts:97-114 | the list of endpoints whose 401 is left to the page, checked by `isDashboardOrProfileEndpoint`, has no profile endpoint, and `/api/auth/profile` (used by `updateProfile`) is not public either | a 401 answer to `PUT http://localhost:8080/api/auth/profile`, or to that path after any origin without the letter 'i' | a 401 on the profile endpoint is left to the profile page, as the method's name says, instead of logging the user out and leaving for /login | medium, not executed | ErrorInterceptor.ProfileUpdateLogsOut | ErrorInterceptor.ProfileUpdateKeepsSession |
| frontend/src/app/components/login/login.component.ts:53 | on a 400 whose body is not a string, `error.error.includes('Bad credentials')` is called on that body | a 400 whose body is a JSON object such as `{"message": "..."}` | the credentials test applies only to a text body, so every failed login shows a message and the login-error toast | high, not executed | Login.JsonBadRequestThrows | Login.OnSubmitCorrected |
