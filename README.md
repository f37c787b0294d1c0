# Feedback system client: a Dafny model

This project models the client-side rules of an Android feedback app for training
sessions. Trainees log in, pick a trainer and a module, rate a list of questions from
1 to 5, preview their answers and submit them. Administrators maintain the questions,
the trainers and the modules. The server does the storing, scoring and authentication.
What the client decides for itself is modelled here:

- the process-wide feedback session (`Session`): username, role, selected trainer and
  module, and a map from question number to rating, with its reset;
- the question wizard (`QuestionWizard`), the preview (`FeedbackPreview`) and the
  submission (`SubmitFeedback`) of one round of feedback;
- the login, forgot-password and reset-password forms (`Login`, `ForgotPassword`,
  `ResetPassword`);
- trainer and module selection (`TrainerSelection`, `ModuleSelection`);
- the administrator's list and form screens for questions, trainers and modules
  (`QuestionsAdmin`, `TrainersAdmin`, `ModulesAdmin`).

Every HTTP call is reduced to its outcome, which handlers take as a parameter
(`Remote.Outcome`): a 2xx answer with a body that may be absent, another status with
an optional error body, or a thrown exception. Each screen's remembered state is a
class whose fields the handlers update. Each handler runs to completion before the next
one starts. Where a handler's effect is worth reasoning about across several steps, a
pure function states it: `QuestionWizard.Next`, `Session.RecordAll`, `QuestionsAdmin.DecideSave`,
`TrainersAdmin.RequestFor`, and so on. The method's `ensures` ties it to that function,
and lemmas prove what the function promises. `KotlinStd` models the Kotlin library calls
these rules depend on: `isBlank`, `toIntOrNull`, `Int.toString`, `String.length` (in UTF-16
units), `Double.toInt` and `List.filter`.

Gson decodes JSON numbers in a `Map<String, Any>` as doubles. They are modelled as exact
`real`s, and `toInt()` as truncation toward zero clamped to the 32-bit range.

Where the app's documented design and its code disagree, the model follows the code:

- The submission guard refuses only the literal `"Unknown"`. Neither the preview's `"N/A"`
  nor an empty username is refused. An empty username is what trainer selection stores
  when its `USERNAME` extra is missing (`SubmitFeedback.OtherPlaceholdersPass`,
  `SubmitFeedback.MissingDataOfSession`).
- The payload carries `question1..question10` whatever the list of questions was.
  Answers recorded under any other question number are dropped, and questions without
  an answer are sent as 0.
- A 2xx answer to the forgot-password request with no body shows `"Unknown error"`,
  because the error body of a successful response is always null.

The model classes `Question`, `Trainer` and `Module` (models/) are not part of this model.
Their fields are inferred from the way the screens use them:

- `Question(id: Int?, questionNumber: Int, questionText: String)`. Its id is nullable,
  because the screens reach it through `?.`.
- `Trainer(id: Int, trainerName: String, trainerImg: String?)`. Its id is an Int, because
  `trainer.id.let { onEditTrainer(it) }` passes it where an Int is expected.
- `Module(id: Int, module: String)`. The name field is called `name` here, because
  `module` is a Dafny keyword. Module equality in `filter { it != module }` is taken to be
  structural, as for a Kotlin data class.

## Model

| member | source | states |
|---|---|---|
| Session.FeedbackSession.constructor | app/src/main/java/com/example/feedback_system/utils/FeedbackSession.kt:5-9 | Every field starts absent and the answer map empty: the initial state is the state a reset leaves. |
| Session.FeedbackSession.Reset | app/src/main/java/com/example/feedback_system/utils/FeedbackSession.kt:11-17 | After a reset the username, role, trainer and module are absent and the answer map is empty, whatever the state before. |
| Session.FeedbackSession.RecordAnswer | app/src/main/java/com/example/feedback_system/utils/FeedbackSession.kt:9 | Writing an answer inserts or overwrites exactly one entry of the answer map; the other entries and the four other fields keep their values. |
| Session.RecordOne | app/src/main/java/com/example/feedback_system/utils/FeedbackSession.kt:9 | One write leaves one rating per question number: the written number holds the new rating, every other number its old one, and no number appears or disappears besides the written one. |
| Session.ResetTwice | app/src/main/java/com/example/feedback_system/utils/FeedbackSession.kt:11-17 | Resetting twice leaves the same empty state as resetting once. |
| Session.Logout | app/src/main/java/com/example/feedback_system/admin/AdminDashboardActivity.kt:69-73 | The logout buttons (the admin dashboard here, the same handler in UserDashboardActivity.kt and ThankYouActivity.kt) empty the session before they open the login screen. |
| Session.LastWrite | app/src/main/java/com/example/feedback_system/utils/FeedbackSession.kt:9 | The last write for a question number exists exactly when some write names that number. |
| Session.RecordAllSnoc | app/src/main/java/com/example/feedback_system/utils/FeedbackSession.kt:9 | Applying writes one after another: a run of writes followed by one more equals that one write applied to the result of the run. |
| Session.LastWriteWins | app/src/main/java/com/example/feedback_system/utils/FeedbackSession.kt:9 | After any sequence of writes each written question number holds the rating of its last write, and every unwritten number keeps its old rating or stays absent. |
| Session.RecordAllKeepsRatingsInRange | app/src/main/java/com/example/feedback_system/user/QuestionActivity.kt:107-124 | Writes of star ratings 1 to 5 keep every rating in the answer map between 1 and 5. |
| QuestionWizard.PhaseOf | app/src/main/java/com/example/feedback_system/user/QuestionActivity.kt:65-80 | The screen shows the spinner exactly when the list is empty, the question at the index exactly when the index is inside the list, and moves on to the preview exactly when a non-empty list has been run past. |
| QuestionWizard.CurrentQuestion | app/src/main/java/com/example/feedback_system/user/QuestionActivity.kt:80 | The current question is read only while the index lies inside the list, and it is a question of the list. |
| QuestionWizard.Tap | app/src/main/java/com/example/feedback_system/user/QuestionActivity.kt:107-124 | A tap on star i (1 to 5) makes i the selected rating, keeps the selection within 0 to 5 and enables Next exactly when a question is shown; list and index are unchanged. |
| QuestionWizard.Next | app/src/main/java/com/example/feedback_system/user/QuestionActivity.kt:139-145 | Next, only while enabled, stores the selected rating under the shown question's number (not its index): that entry afterwards holds exactly the tapped rating; it changes no other answer, clears the selection, advances the index by exactly one, and keeps every recorded rating within 1 to 5. |
| QuestionWizard.NextLabel | app/src/main/java/com/example/feedback_system/user/QuestionActivity.kt:149 | The button reads "Preview Feedback" exactly on the last question and "Next" before it. |
| QuestionWizard.EmptyListStaysLoading | app/src/main/java/com/example/feedback_system/user/QuestionActivity.kt:52-70 | An empty list, whatever outcome produced it, leaves the screen loading: Next is neither shown nor enabled, and the preview never opens. |
| QuestionWizard.Writes | app/src/main/java/com/example/feedback_system/user/QuestionActivity.kt:141 | Answering from a given index writes, in order, each question's number with the rating chosen for it. |
| QuestionWizard.AnswerEachEffect | app/src/main/java/com/example/feedback_system/user/QuestionActivity.kt:139-145 | k taps-and-Nexts advance the index by exactly k, keep the list, clear the selection, and leave the answer map equal to the k writes performed in order. |
| QuestionWizard.PreviewAfterExactlyN | app/src/main/java/com/example/feedback_system/user/QuestionActivity.kt:72-77 | With N >= 1 questions, question k is shown after k Nexts for every k < N, and the preview opens after exactly N. |
| QuestionWizard.LastWriteOfUnique | app/src/main/java/com/example/feedback_system/user/QuestionActivity.kt:141 | A question number written only once has that write as its last write. |
| QuestionWizard.AnswerAllRecordsEachRating | app/src/main/java/com/example/feedback_system/user/QuestionActivity.kt:139-145 | Answering every question of a list with distinct numbers records each chosen rating under its question's number and keeps every other recorded answer. |
| QuestionWizard.ThreeQuestionRound | app/src/main/java/com/example/feedback_system/user/QuestionActivity.kt:72-77 | Questions numbered 1, 2 and 3 answered with 4, 5 and 2 from an empty session reach the preview after three Nexts with exactly {1: 4, 2: 5, 3: 2} recorded. |
| QuestionWizard.QuestionScreen.constructor | app/src/main/java/com/example/feedback_system/user/QuestionActivity.kt:40-42 | The screen starts at index 0 with no rating selected and an empty list. |
| QuestionWizard.QuestionScreen.OnQuestionsLoaded | app/src/main/java/com/example/feedback_system/user/QuestionActivity.kt:49-63 | A 2xx answer replaces the list (an absent body with the empty list); a non-2xx answer or a failure keeps the screen as it was. |
| QuestionWizard.QuestionScreen.TapRating | app/src/main/java/com/example/feedback_system/user/QuestionActivity.kt:121-123 | A star tap changes the screen as Tap says. |
| QuestionWizard.QuestionScreen.ClickNext | app/src/main/java/com/example/feedback_system/user/QuestionActivity.kt:139-145 | The Next handler changes the screen and the session's answers as Next says and no other session field. |
| FeedbackPreview.MinKey | app/src/main/java/com/example/feedback_system/user/FeedbackPreviewActivity.kt:40 | A non-empty answer map has a smallest question number. |
| FeedbackPreview.SortedAnswers | app/src/main/java/com/example/feedback_system/user/FeedbackPreviewActivity.kt:40 | The sorted entries are as many as the answers, each one a recorded number with its rating, in strictly ascending number order. |
| FeedbackPreview.SortedAnswersComplete | app/src/main/java/com/example/feedback_system/user/FeedbackPreviewActivity.kt:85-86 | Every recorded answer is listed with its rating; with the strict order it is listed exactly once. |
| FeedbackPreview.PreviewOf | app/src/main/java/com/example/feedback_system/user/FeedbackPreviewActivity.kt:37-40 | An absent username, trainer or module reads "N/A", a present one reads its value, and the answers are the recorded (number, rating) pairs, listed once each in ascending number order (the entries of SortedAnswers); the session is only read. |
| FeedbackPreview.OnButton | app/src/main/java/com/example/feedback_system/user/FeedbackPreviewActivity.kt:92-110 | Submit Feedback opens the submission screen; Go Back only finishes the preview. |
| SubmitFeedback.NamesOf | app/src/main/java/com/example/feedback_system/user/FeedbackSubmitActivity.kt:16-19 | Each absent name reaches the submission as "Unknown", each present name as itself. |
| SubmitFeedback.MissingDataOfSession | app/src/main/java/com/example/feedback_system/user/SubmitFeedbackComposable.kt:30-33 | Submission from a session is refused exactly when a name is absent or is literally "Unknown". |
| SubmitFeedback.OtherPlaceholdersPass | app/src/main/java/com/example/feedback_system/user/SubmitFeedbackComposable.kt:30-33 | The guard refuses only the literal "Unknown": an empty username with "N/A" trainer and module passes. |
| SubmitFeedback.QuestionKeyDistinct | app/src/main/java/com/example/feedback_system/user/SubmitFeedbackComposable.kt:41-44 | The keys question1..question10 are pairwise distinct and never equal username, trainerName or module. |
| SubmitFeedback.BuildSubmission | app/src/main/java/com/example/feedback_system/user/SubmitFeedbackComposable.kt:35-44 | The payload has exactly the keys username, trainerName, module and question1..question10; the names go as text, and question{i} holds the rating recorded under number i or 0; answers under other numbers are not sent. |
| SubmitFeedback.AliceSubmission | app/src/main/java/com/example/feedback_system/user/SubmitFeedbackComposable.kt:35-44 | alice, Bob and Kotlin101 with answers {1: 5, 2: 5} give question1 = question2 = 5 and question3..question10 = 0. |
| SubmitFeedback.SubmitAllFeedback | app/src/main/java/com/example/feedback_system/user/SubmitFeedbackComposable.kt:22-64 | A name equal to "Unknown" sends nothing and changes nothing; otherwise the payload goes out with exactly the 13 keys, the three given names as text and each question{i} holding the session's rating or 0; a 2xx answer resets the session and calls onDone, and any other answer or failure leaves the session as it was without onDone. |
| SubmitFeedback.SubmitFromSession | app/src/main/java/com/example/feedback_system/user/FeedbackSubmitActivity.kt:12-27 | Nothing is sent exactly when a session name is absent or is literally "Unknown", and then the session stays as it was; otherwise the session's three names and its ratings (0 when unanswered) go out under the 13 keys, and the session is reset only on a 2xx answer. |
| Login.LoginBody | app/src/main/java/com/example/feedback_system/user/LoginActivity.kt:86 | The login body has exactly the keys email and password, holding the typed values. |
| Login.DecodeUser | app/src/main/java/com/example/feedback_system/user/LoginActivity.kt:95-98 | A user is decoded exactly when the body's user value is an object; its username is the string there or "", its role the number there truncated to a 32-bit Int or 0. |
| Login.RouteFor | app/src/main/java/com/example/feedback_system/user/LoginActivity.kt:108-112 | Role 1 routes to the admin dashboard; every other role to the user dashboard. |
| Login.LoginReaction | app/src/main/java/com/example/feedback_system/user/LoginActivity.kt:88-131 | Only a 2xx answer with a body holding a user object logs in, with the decoded username and role and the route of that role; an empty 2xx body, a non-2xx status and a failure are told apart, the failure with the message "Error: " and the exception's message. |
| Login.AdminRoleRoutesToAdmin | app/src/main/java/com/example/feedback_system/user/LoginActivity.kt:98-110 | A user object whose role is the number 1 logs in to the admin dashboard. |
| Login.MissingRoleRoutesToUser | app/src/main/java/com/example/feedback_system/user/LoginActivity.kt:98-112 | A user object without a numeric role logs in with role 0 to the user dashboard. |
| Login.LoginScreen.ClickLogin | app/src/main/java/com/example/feedback_system/user/LoginActivity.kt:85-86 | The Login button sends the body built from the typed email and password. |
| Login.LoginScreen.OnLoginResponse | app/src/main/java/com/example/feedback_system/user/LoginActivity.kt:88-131 | A login writes the decoded username and role into the session and nothing else; every other outcome leaves the session unchanged. |
| Login.LoginScreen.constructor | app/src/main/java/com/example/feedback_system/user/LoginActivity.kt:46-47 | The form starts with empty email and password. |
| ForgotPassword.VerifyBody | app/src/main/java/com/example/feedback_system/user/ForgotPasswordActivity.kt:93 | The request body has exactly the keys username and email. |
| ForgotPassword.ForgotReaction | app/src/main/java/com/example/feedback_system/user/ForgotPasswordActivity.kt:96-124 | A 2xx body with a numeric userId opens the reset screen with that id as an Int; a 2xx body without one shows its message or "Invalid credentials"; a 2xx answer without a body shows "Unknown error"; a non-2xx status shows "Invalid username or email"; a failure shows "Error: " and its message. |
| ForgotPassword.OnlySuccessNavigates | app/src/main/java/com/example/feedback_system/user/ForgotPasswordActivity.kt:116-123 | A non-2xx answer or a failure never opens the reset screen. |
| ForgotPassword.ForgotPasswordScreen.ClickVerify | app/src/main/java/com/example/feedback_system/user/ForgotPasswordActivity.kt:86-95 | A blank username or email sends nothing and leaves the spinner off; otherwise the body goes out and the spinner is on. |
| ForgotPassword.ForgotPasswordScreen.OnVerifyResponse | app/src/main/java/com/example/feedback_system/user/ForgotPasswordActivity.kt:96-124 | Every answer or failure turns the spinner off and reacts as ForgotReaction says. |
| ForgotPassword.ForgotPasswordScreen.constructor | app/src/main/java/com/example/feedback_system/user/ForgotPasswordActivity.kt:41-43 | The form starts with empty fields and no spinner. |
| ResetPassword.UserIdFromExtra | app/src/main/java/com/example/feedback_system/user/ResetPasswordActivity.kt:31 | A missing USER_ID extra gives user id -1. |
| ResetPassword.ValidateReset | app/src/main/java/com/example/feedback_system/user/ResetPasswordActivity.kt:90-103 | The checks run in order (a blank field, then different passwords, then fewer than 6 UTF-16 units) and the first failing one alone gives the message; none fails exactly when both fields are filled, equal and at least 6 long. |
| ResetPassword.AcceptedPasswordLength | app/src/main/java/com/example/feedback_system/user/ResetPasswordActivity.kt:90-103 | A password that passes the checks equals its confirmation and has at least 3 characters, since 6 UTF-16 units need at least 3 characters. |
| ResetPassword.ResetBody | app/src/main/java/com/example/feedback_system/user/ResetPasswordActivity.kt:106-109 | The request body has exactly userId and newPassword; the confirmation is not sent. |
| ResetPassword.ResetReaction | app/src/main/java/com/example/feedback_system/user/ResetPasswordActivity.kt:112-127 | Only a 2xx answer goes to the login screen; a non-2xx status shows "Failed to reset password" and a failure "Error: " and its message. |
| ResetPassword.ResetPasswordScreen.ClickReset | app/src/main/java/com/example/feedback_system/user/ResetPasswordActivity.kt:89-111 | A failing check shows its message, sends nothing and leaves the spinner off; otherwise the spinner goes on and the body goes out. |
| ResetPassword.ResetPasswordScreen.OnResetResponse | app/src/main/java/com/example/feedback_system/user/ResetPasswordActivity.kt:112-127 | Every answer or failure turns the spinner off and reacts as ResetReaction says. |
| ResetPassword.ResetPasswordScreen.constructor | app/src/main/java/com/example/feedback_system/user/ResetPasswordActivity.kt:31-46 | The screen keeps the user id of the extra (-1 when missing) and starts with empty fields and no spinner. |
| TrainerSelection.OnCreate | app/src/main/java/com/example/feedback_system/user/TrainerSelectionActivity.kt:42 | Opening the screen overwrites the session's username with the USERNAME extra, or "" when it is missing, and changes nothing else. |
| TrainerSelection.ViewOf | app/src/main/java/com/example/feedback_system/user/TrainerSelectionActivity.kt:88-119 | The screen shows the spinner exactly while loading, "No trainers available" exactly when loading ended with an empty list, and otherwise the non-empty list. |
| TrainerSelection.TrainerSelectionScreen.OnTrainersFetched | app/src/main/java/com/example/feedback_system/user/TrainerSelectionActivity.kt:57-74 | A 2xx answer replaces the list; a non-2xx answer or an exception keeps it; every outcome ends the loading. |
| TrainerSelection.TrainerSelectionScreen.SelectTrainer | app/src/main/java/com/example/feedback_system/user/TrainerSelectionActivity.kt:107-113 | A tap on a listed trainer sets the selected trainer to its name and nothing else in the session, and opens module selection with the session's username (or "") and that name. |
| TrainerSelection.TrainerSelectionScreen.constructor | app/src/main/java/com/example/feedback_system/user/TrainerSelectionActivity.kt:53-54 | The screen starts loading, with an empty list. |
| ModuleSelection.Header | app/src/main/java/com/example/feedback_system/user/ModuleSelectionActivity.kt:44 | The header names the selected trainer, or "Unknown" when none is selected. |
| ModuleSelection.ModuleSelectionScreen.OnModulesFetched | app/src/main/java/com/example/feedback_system/user/ModuleSelectionActivity.kt:46-58 | Only a 2xx answer replaces the module list. |
| ModuleSelection.ModuleSelectionScreen.SelectModule | app/src/main/java/com/example/feedback_system/user/ModuleSelectionActivity.kt:104-111 | A tap on a module sets the selected module to its name and nothing else in the session, and opens the questions with the session's username and trainer and the module's name. |
| ModuleSelection.ModuleSelectionScreen.constructor | app/src/main/java/com/example/feedback_system/user/ModuleSelectionActivity.kt:43 | The screen starts with an empty module list. |
| QuestionsAdmin.RemoveQuestion | app/src/main/java/com/example/feedback_system/admin/QuestionsListActivity.kt:237 | The filtered list holds exactly the questions of the old list whose id differs from the deleted one. |
| QuestionsAdmin.RemoveQuestionCounts | app/src/main/java/com/example/feedback_system/admin/QuestionsListActivity.kt:237 | Every question with another id stays as often as it was listed; none with the deleted id stays. |
| QuestionsAdmin.RemoveQuestionSplits | app/src/main/java/com/example/feedback_system/admin/QuestionsListActivity.kt:237 | Removal works piecewise on any split of the list, so the rest keep their order. |
| QuestionsAdmin.FetchedQuestions | app/src/main/java/com/example/feedback_system/admin/QuestionsListActivity.kt:108-131 | The full list is used on a 2xx answer; after any other status the fallback list is used only if the fallback answers 2xx; after an exception the list stays. |
| QuestionsAdmin.QuestionsListScreen.OnQuestionsFetched | app/src/main/java/com/example/feedback_system/admin/QuestionsListActivity.kt:108-131 | The list becomes the one FetchedQuestions gives and loading ends on every path. |
| QuestionsAdmin.QuestionsListScreen.ClickEdit | app/src/main/java/com/example/feedback_system/admin/QuestionsListActivity.kt:208 | Edit opens the form for the question's id, and does nothing for a question without an id. |
| QuestionsAdmin.QuestionsListScreen.ClickDelete | app/src/main/java/com/example/feedback_system/admin/QuestionsListActivity.kt:209-214 | Delete selects the question and opens the dialog only when the question has an id. |
| QuestionsAdmin.QuestionsListScreen.ConfirmDelete | app/src/main/java/com/example/feedback_system/admin/QuestionsListActivity.kt:228-248 | The delete request goes out only for a selected question with an id; a 2xx answer removes every question with that id, anything else keeps the list; the dialog closes in every case. |
| QuestionsAdmin.QuestionsListScreen.DismissDelete | app/src/main/java/com/example/feedback_system/admin/QuestionsListActivity.kt:253-256 | Cancel closes the dialog and changes nothing else. |
| QuestionsAdmin.RouteId | app/src/main/java/com/example/feedback_system/admin/QuestionsListActivity.kt:79 | The route's id is present exactly when the route argument parses as an Int, and is then that Int. |
| QuestionsAdmin.EndpointFor | app/src/main/java/com/example/feedback_system/admin/QuestionsListActivity.kt:442-446 | The update endpoint, for the given id, is chosen exactly when edit mode is on and an id is present; otherwise create. |
| QuestionsAdmin.UnparsableRouteIdCreates | app/src/main/java/com/example/feedback_system/admin/QuestionsListActivity.kt:79-89 | An edit route whose id does not parse saves through the create endpoint. |
| QuestionsAdmin.QuestionBody | app/src/main/java/com/example/feedback_system/admin/QuestionsListActivity.kt:437-440 | The save body has exactly questionText and questionNumber, the latter as a number. |
| QuestionsAdmin.DecideSave | app/src/main/java/com/example/feedback_system/admin/QuestionsListActivity.kt:427-446 | Save is refused with "Please enter a valid question number" exactly when the number does not parse as an Int; otherwise the body with the parsed number goes to the chosen endpoint. |
| QuestionsAdmin.ParsedNumberIsNotBlank | app/src/main/java/com/example/feedback_system/admin/QuestionsListActivity.kt:427-487 | A number that parses is never blank. |
| QuestionsAdmin.EnabledSaveCanBeRejected | app/src/main/java/com/example/feedback_system/admin/QuestionsListActivity.kt:427-487 | The enabled button can still be refused: "1.5" is not blank but is not an Int. |
| QuestionsAdmin.LoadedQuestionSavesUnchanged | app/src/main/java/com/example/feedback_system/admin/QuestionsListActivity.kt:330-333 | A loaded question saved unchanged goes to the update endpoint with its own text and number: toString and toIntOrNull are inverse on Int. |
| QuestionsAdmin.ExceptionMessage | app/src/main/java/com/example/feedback_system/admin/QuestionsListActivity.kt:457-476 | Timeout, connect and SSL failures get their own fixed messages, any other I/O failure "Network error: " and its message or "Unknown IO error", anything else "Unexpected error: " and its message. |
| QuestionsAdmin.SaveError | app/src/main/java/com/example/feedback_system/admin/QuestionsListActivity.kt:449-476 | No error after a 2xx answer; "Server error: code - error body" (or "No error body") after another status; the exception's message after a failure. |
| QuestionsAdmin.AddEditQuestionScreen.OnQuestionLoaded | app/src/main/java/com/example/feedback_system/admin/QuestionsListActivity.kt:324-347 | A loaded question fills the text and the number as its decimal text; a non-2xx status or an exception sets the matching error and keeps the form. |
| QuestionsAdmin.AddEditQuestionScreen.ClickSave | app/src/main/java/com/example/feedback_system/admin/QuestionsListActivity.kt:426-446 | An unparsable number shows the error and sends nothing; otherwise the error is cleared, the spinner is on and the request DecideSave chose goes out. |
| QuestionsAdmin.AddEditQuestionScreen.OnSaveFinished | app/src/main/java/com/example/feedback_system/admin/QuestionsListActivity.kt:448-481 | A 2xx answer goes back to the list; anything else shows SaveError; the spinner stops on every path. |
| QuestionsAdmin.QuestionsListScreen.constructor | app/src/main/java/com/example/feedback_system/admin/QuestionsListActivity.kt:102-105 | The list starts empty and loading, with no dialog and nothing selected. |
| QuestionsAdmin.AddEditQuestionScreen.constructor | app/src/main/java/com/example/feedback_system/admin/QuestionsListActivity.kt:311-321 | The form keeps its mode and id and starts empty, without spinner or error. |
| TrainersAdmin.RemoveTrainer | app/src/main/java/com/example/feedback_system/admin/TrainersListActivity.kt:241 | The filtered list holds exactly the trainers of the old list whose id differs from the deleted one. |
| TrainersAdmin.RemoveTrainerCounts | app/src/main/java/com/example/feedback_system/admin/TrainersListActivity.kt:241 | Every trainer with another id stays as often as it was listed; none with the deleted id stays. |
| TrainersAdmin.RemoveTrainerSplits | app/src/main/java/com/example/feedback_system/admin/TrainersListActivity.kt:241 | Removal works piecewise on any split of the list, so the rest keep their order. |
| TrainersAdmin.TrainersListScreen.OnTrainersFetched | app/src/main/java/com/example/feedback_system/admin/TrainersListActivity.kt:121-138 | Only a 2xx answer replaces the list; every outcome ends the loading. |
| TrainersAdmin.TrainersListScreen.ClickDelete | app/src/main/java/com/example/feedback_system/admin/TrainersListActivity.kt:215-218 | Delete selects the trainer and opens the dialog. |
| TrainersAdmin.TrainersListScreen.ConfirmDelete | app/src/main/java/com/example/feedback_system/admin/TrainersListActivity.kt:234-250 | With a selected trainer the delete request goes out; a 2xx answer removes every trainer with its id, anything else keeps the list; the dialog closes in every case. |
| TrainersAdmin.TrainersListScreen.DismissDelete | app/src/main/java/com/example/feedback_system/admin/TrainersListActivity.kt:257-260 | Cancel closes the dialog and changes nothing else. |
| TrainersAdmin.PreviewImage | app/src/main/java/com/example/feedback_system/admin/TrainersListActivity.kt:442-476 | A picked image is shown first, then a non-null non-empty server URL, and the placeholder exactly when neither exists. |
| TrainersAdmin.TextOnlyBody | app/src/main/java/com/example/feedback_system/admin/TrainersListActivity.kt:565-567 | The text-only body has exactly the key trainerName. |
| TrainersAdmin.RequestFor | app/src/main/java/com/example/feedback_system/admin/TrainersListActivity.kt:520-574 | The save request is multipart exactly when an image was picked and an update exactly when edit mode is on with an id, giving the four endpoints of the decision table. |
| TrainersAdmin.SaveError | app/src/main/java/com/example/feedback_system/admin/TrainersListActivity.kt:556-588 | No error after a 2xx answer; "Server error: " and the code after another status; "Error: " and the exception's message after a failure. |
| TrainersAdmin.AddEditTrainerScreen.OnImagePicked | app/src/main/java/com/example/feedback_system/admin/TrainersListActivity.kt:346-350 | A picked image replaces the selection; a cancelled pick changes nothing. |
| TrainersAdmin.AddEditTrainerScreen.OnTrainerLoaded | app/src/main/java/com/example/feedback_system/admin/TrainersListActivity.kt:353-378 | A loaded trainer sets the name and the server image URL but never the picked image; a non-2xx status or an exception sets the matching error. |
| TrainersAdmin.AddEditTrainerScreen.ClickSave | app/src/main/java/com/example/feedback_system/admin/TrainersListActivity.kt:509-520 | A blank name shows "Please enter a trainer name" and sends nothing; otherwise the error is cleared, the spinner is on and the request of the decision table goes out. |
| TrainersAdmin.AddEditTrainerScreen.OnSaveFinished | app/src/main/java/com/example/feedback_system/admin/TrainersListActivity.kt:556-593 | A 2xx answer goes back to the list; anything else shows SaveError; the spinner stops on every path. |
| TrainersAdmin.EditWithoutPickingImage | app/src/main/java/com/example/feedback_system/admin/TrainersListActivity.kt:360-365 | Editing a trainer and saving without picking an image sends the text-only update, whatever the server image. |
| TrainersAdmin.TrainersListScreen.constructor | app/src/main/java/com/example/feedback_system/admin/TrainersListActivity.kt:115-118 | The list starts empty and loading, with no dialog and nothing selected. |
| TrainersAdmin.AddEditTrainerScreen.constructor | app/src/main/java/com/example/feedback_system/admin/TrainersListActivity.kt:340-344 | The form keeps its mode and id and starts with an empty name, no image of either kind, no spinner and no error. |
| ModulesAdmin.RemoveModule | app/src/main/java/com/example/feedback_system/admin/ModulesListActivity.kt:263 | The filtered list holds exactly the modules of the old list not equal to the deleted one. |
| ModulesAdmin.RemoveModuleCounts | app/src/main/java/com/example/feedback_system/admin/ModulesListActivity.kt:263 | Every other module stays as often as it was listed; the deleted one is gone entirely. |
| ModulesAdmin.RemoveModuleSplits | app/src/main/java/com/example/feedback_system/admin/ModulesListActivity.kt:263 | Removal works piecewise on any split of the list, so the rest keep their order. |
| ModulesAdmin.RemoveAbsentModule | app/src/main/java/com/example/feedback_system/admin/ModulesListActivity.kt:263 | Removing a module that is not listed leaves the list as it was. |
| ModulesAdmin.CreateBody | app/src/main/java/com/example/feedback_system/admin/ModulesListActivity.kt:204-206 | The create body has exactly the key module, holding the typed name. |
| ModulesAdmin.ModulesListScreen.OnModulesFetched | app/src/main/java/com/example/feedback_system/admin/ModulesListActivity.kt:57-74 | Only a 2xx answer replaces the list; every outcome ends the loading; the dialogs are untouched. |
| ModulesAdmin.ModulesListScreen.OpenAddDialog | app/src/main/java/com/example/feedback_system/admin/ModulesListActivity.kt:115 | The add button opens the dialog and keeps the typed name. |
| ModulesAdmin.ModulesListScreen.ClickAdd | app/src/main/java/com/example/feedback_system/admin/ModulesListActivity.kt:200-206 | A blank name does nothing; otherwise the create body goes out. |
| ModulesAdmin.ModulesListScreen.OnCreateFinished | app/src/main/java/com/example/feedback_system/admin/ModulesListActivity.kt:208-218 | A 2xx answer closes the dialog, clears the typed name and fetches again; anything else leaves dialog and name as they were. |
| ModulesAdmin.ModulesListScreen.CancelAdd | app/src/main/java/com/example/feedback_system/admin/ModulesListActivity.kt:227-230 | Cancel closes the add dialog and clears the typed name. |
| ModulesAdmin.ModulesListScreen.DismissAdd | app/src/main/java/com/example/feedback_system/admin/ModulesListActivity.kt:169 | A tap outside the add dialog closes it and keeps the typed name. |
| ModulesAdmin.ModulesListScreen.ClickDelete | app/src/main/java/com/example/feedback_system/admin/ModulesListActivity.kt:155-158 | Delete selects the module and opens the delete dialog. |
| ModulesAdmin.ModulesListScreen.ConfirmDelete | app/src/main/java/com/example/feedback_system/admin/ModulesListActivity.kt:256-273 | With a selected module the delete request goes out for its id; a 2xx answer removes every entry equal to it, anything else keeps the list; the dialog closes in every case. |
| ModulesAdmin.ModulesListScreen.DismissDelete | app/src/main/java/com/example/feedback_system/admin/ModulesListActivity.kt:280 | Cancel closes the delete dialog and changes nothing else. |
| ModulesAdmin.ModulesListScreen.constructor | app/src/main/java/com/example/feedback_system/admin/ModulesListActivity.kt:49-54 | The list starts empty and loading, with both dialogs closed, nothing selected and no typed name. |
| KotlinStd.ParseInt | app/src/main/java/com/example/feedback_system/admin/QuestionsListActivity.kt:427 | toIntOrNull gives a value exactly for the digits alone, or a '-' or '+' followed by at least one digit, whose value fits in 32 bits; the value is the digits' decimal value, negated after '-'. Such a string is never blank. |
| KotlinStd.IntToString | app/src/main/java/com/example/feedback_system/admin/QuestionsListActivity.kt:333 | toString of an Int is non-empty and starts with '-' exactly for a negative number. |
| KotlinStd.DigitsValueOfNatToString | app/src/main/java/com/example/feedback_system/admin/QuestionsListActivity.kt:333 | The digits written for a natural number read back as that number. |
| KotlinStd.ParseIntOfIntToString | app/src/main/java/com/example/feedback_system/admin/QuestionsListActivity.kt:333-439 | toIntOrNull reads back every Int that toString wrote. |
| KotlinStd.IntToStringInjective | app/src/main/java/com/example/feedback_system/user/SubmitFeedbackComposable.kt:43 | Different Ints have different decimal texts. |
| KotlinStd.Utf16Length | app/src/main/java/com/example/feedback_system/user/ResetPasswordActivity.kt:100 | A string's length in UTF-16 units is between its number of characters and twice that. |
| KotlinStd.DoubleToInt | app/src/main/java/com/example/feedback_system/user/LoginActivity.kt:98 | Double.toInt truncates toward zero (floor for a non-negative number, ceiling for a negative one) within the 32-bit range and saturates at MaxInt and MinInt outside it. |
| KotlinStd.DoubleToIntOfWhole | app/src/main/java/com/example/feedback_system/user/LoginActivity.kt:98 | A whole number within Int (a role such as 1.0) converts back to itself. |
| KotlinStd.DoubleToIntMonotonic | app/src/main/java/com/example/feedback_system/user/LoginActivity.kt:98 | The conversion never reverses the order of two numbers. |
| KotlinStd.Filter | app/src/main/java/com/example/feedback_system/admin/QuestionsListActivity.kt:237 | filter keeps exactly the elements that pass the test and never lengthens the list. |
| KotlinStd.FilterAppend | app/src/main/java/com/example/feedback_system/admin/QuestionsListActivity.kt:237 | filter distributes over concatenation. |
| KotlinStd.FilterMultiset | app/src/main/java/com/example/feedback_system/admin/QuestionsListActivity.kt:237 | filter keeps every passing element as often as it occurs and drops every failing one. |
| KotlinStd.FilterAllKept | app/src/main/java/com/example/feedback_system/admin/ModulesListActivity.kt:263 | filter returns the list itself when every element passes. |
| KotlinStd.FilterIdempotent | app/src/main/java/com/example/feedback_system/admin/QuestionsListActivity.kt:237 | filtering twice with the same test is filtering once. |
| Remote.AsString | app/src/main/java/com/example/feedback_system/user/LoginActivity.kt:97 | A string is read from a JSON object exactly when the key is present and holds a string. |
| Remote.AsInt | app/src/main/java/com/example/feedback_system/user/ForgotPasswordActivity.kt:101 | A number is read from a JSON object exactly when the key is present and holds a number, truncated to a 32-bit Int. |
| Remote.ShowNullable | app/src/main/java/com/example/feedback_system/user/ForgotPasswordActivity.kt:123 | A string template shows an absent message as "null". |

## Left out

- The Retrofit interface and `ApiClient` (api/FeedbackApi.kt) are not part of this model. Each call is an `Outcome` parameter, and each request is the body or the endpoint the handler would send.
- Coroutines, `enqueue` callbacks, `LaunchedEffect` and the missing cancellation are left out. Handlers are taken to run one at a time to completion, so late answers and answers that race each other are not modelled.
- The questions list's fallback request runs on the main thread, where Android refuses network calls. The model lets that request take any outcome.
- The image upload (content resolver, temp file, multipart parts) is file I/O. A picked image is modelled by its URI alone, and a failed copy shows up as a `Failure` outcome.
- Toasts, `println` output and stack traces are not modelled, except where a message is the observable result (forgot password, reset password, the admin forms' error text).
- Layout, styling, ReportsActivity, RegisterActivity, MainActivity, DebugActivity and the dashboards are not part of this model. The logout handlers of the dashboards and of the thank-you screen are modelled as `Session.Logout`.
- The `trainerName`, `module` and `username` locals of QuestionActivity (defaults "Unknown" and "Anonymous") are never used, and they are left out.
- KotlinStd.ParseInt: accepts ASCII digits only; `toIntOrNull` also accepts other Unicode decimal digits.
- KotlinStd.DoubleToInt: works on exact reals, so the rounding of a JSON number to the nearest double is not modelled.
- QuestionWizard.QuestionScreen.ClickNext: requires the button to be shown and enabled. The Compose button cannot be pressed otherwise, and the handler reads `currentQuestion`, which exists only while a question is shown.
- ForgotPassword.ForgotPasswordScreen.ClickVerify, ResetPassword.ResetPasswordScreen.ClickReset: require that no request is outstanding, because the button is composed only while the spinner is off.
- Text entry is not modelled as handlers (`onValueChange` only assigns a field). The typed values are the fields of each screen's class.
- The preview's and wizard's rendering of text (`"Question k of N"`, `"Rating r"`) is left out. `PreviewOf` gives the values shown.
