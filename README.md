# Task tracker: a verified model of its task, tag and account logic

The task tracker is a React client talking to an Express/Prisma API. Users register and log
in, create tasks with a title, an optional description, a status and coloured tags, search
and filter them, and delete them. This project models the parts of it that decide things.

**Client helpers**
- `filterTasks`: the search and status filter.
- The request bodies sent to the API, and the reversal of the fetched list.
- The tag colour lookup.

**Client forms** (as classes whose fields are the React state cells)
- The two create/edit modals.
- The stand-alone create page.
- The sign-up password meter and its submit gate.
- The profile page's validators and password-change guards.

**Client list pages**
- How saving and deleting replace the `tasks` state.
- What a task card shows: the status label and the first tags.

**API routes**
- The task routes (list, create, delete): a class holding the task table, the tag table
  keyed by name, and a clock.
- The authentication routes (check-email, register, login, `GET /me`, `DELETE /me`) and
  their older, unmounted variant: a class holding the user table.

**Parameters instead of effects.** Every effect the source performs is a parameter:
- a clock reading, a random palette index, a timestamp;
- whether a token is present;
- what an API call returned, or whether it failed;
- whether the user confirmed.

The modules follow the source files:

| module | models |
|---|---|
| `JsStrings`, `JsArrays` | `trim`, `toLowerCase` (ASCII), `includes`, `\s`, `Array.prototype.filter` |
| `FrontendTypes` | the client's `Task` and `Tag` records |
| `ColorMap` | `frontend/src/utils/colorMap.ts` |
| `TaskHelpers` | `frontend/src/utils/taskHelpers.ts` |
| `TaskModal` | `frontend/src/components/tasks/TaskModal.tsx` |
| `LegacyTaskModal` | `frontend/src/components/TaskModal.tsx` |
| `CreateTask` | `frontend/src/components/CreateTask.tsx` |
| `Register` | `frontend/src/components/auth/Register.tsx` |
| `Profile` | `frontend/src/components/pages/Profile.tsx` |
| `TaskView` | `frontend/src/components/tasks/TaskView.tsx` |
| `ViewTasks` | `frontend/src/components/ViewTasks.tsx` |
| `TaskRoutes` | `backend/src/routes/tasks.ts` |
| `AuthRoutes` | `backend/src/routes/auth.ts` |
| `LegacyAuthRoutes` | `backend/src/routes/auth.routes.ts` |

**Points where the model follows the code rather than its description:**
- The API does not de-duplicate tag names case-insensitively. `connectOrCreate` matches the
  exact name.
- Neither list page has a separate "update" list operation. Both replace every task whose id
  equals the saved task's id.
- The backend accepts any status string. Nothing restricts it to the three values the forms
  offer.

## Model

| member | source | states |
|---|---|---|
| ColorMap.PaletteIsMapped | frontend/src/utils/colorMap.ts:1-35 | the palette has 15 pairwise distinct colours; each is a key of the badge table, and every key of the table is a palette colour |
| ColorMap.GetTagColors | frontend/src/utils/colorMap.ts:37-38 | a missing colour gets the `#3b82f6` entry (blue); a colour that is a key gets exactly its own entry; any other string gets the blue fallback; the result is always one of the table's entries, so the lookup is total |
| ColorMap.PaletteColorsShowOwnClasses | frontend/src/utils/colorMap.ts:1-38 | a tag coloured from the palette shows that colour's own classes, which differ from the fallback unless the colour is blue |
| ColorMap.PropertyOf | frontend/src/utils/colorMap.ts:19-35 | indexing the table object yields an own entry exactly for its keys, and an inherited member exactly for the `Object.prototype` names that are not keys |
| ColorMap.GetTagColorsAsWritten | frontend/src/utils/colorMap.ts:37-38 | the expression as written never yields `undefined` |
| ColorMap.AsWrittenAgreesOffPrototype | frontend/src/utils/colorMap.ts:37-38 | on every colour that is missing or not an inherited property name, the expression as written gives the same entry as the corrected lookup |
| ColorMap.AsWrittenMissesFallback | frontend/src/utils/colorMap.ts:38 | for the colour `"toString"` the expression as written gives the inherited function, while the corrected lookup gives the blue fallback |
| TaskHelpers.Reverse | frontend/src/utils/taskHelpers.ts:16 | the copy has the same length, and position `i` holds the element at position `n-1-i` |
| TaskHelpers.FetchedTasksReversed | frontend/src/utils/taskHelpers.ts:16 | `fetchTasks` yields the same tasks as the server sent, each with the same multiplicity, in the opposite order: reversing again gives the server's array |
| TaskHelpers.RequestBody | frontend/src/utils/taskHelpers.ts:35-43 | the body keeps the title and status; the description becomes `null` exactly when it is missing or empty; each tag keeps its name and sends its own colour, or `#3b82f6` when it has none |
| TaskHelpers.BodyColorsAreMapped | frontend/src/utils/taskHelpers.ts:39-42 | a body built from palette-coloured or uncoloured tags carries only colours that have their own badge classes |
| TaskHelpers.FilterTasks | frontend/src/utils/taskHelpers.ts:104-122 | every result is a task of the input; with a status other than `"all"` it has that status; unless the normalised query is empty, its title, description or a tag name contains the query; every input task that passes is in the result |
| TaskHelpers.FilterTasksIsSubsequence | frontend/src/utils/taskHelpers.ts:110 | the result is a subsequence of the input: order is kept and no task is added or repeated |
| TaskHelpers.FilterTasksKeepsExactly | frontend/src/utils/taskHelpers.ts:112-120 | an input task is kept if and only if it passes the status test and the query is blank or occurs, lower-cased, in its lower-cased title, description or a tag name |
| TaskHelpers.FilterTasksAllBlank | frontend/src/utils/taskHelpers.ts:109-114 | with status `"all"` and a blank query the output equals the input |
| TaskHelpers.FilterTasksIdempotent | frontend/src/utils/taskHelpers.ts:104-122 | filtering the result again with the same arguments changes nothing |
| TaskHelpers.FilterTasksSameQuery | frontend/src/utils/taskHelpers.ts:109 | two queries with the same trimmed, lower-cased form give the same result |
| TaskHelpers.FilterTasksIgnoresPadding | frontend/src/utils/taskHelpers.ts:109 | white space around the query does not change the result |
| TaskHelpers.FilterTasksIgnoresCase | frontend/src/utils/taskHelpers.ts:109 | queries that differ only in ASCII letter case give the same result |
| TaskModal.WithoutTag | frontend/src/components/tasks/TaskModal.tsx:80-81 | every remaining tag is one of the input with another id, and every input tag with another id remains |
| TaskModal.WithoutTagKeepsOrder | frontend/src/components/tasks/TaskModal.tsx:80-81 | removal keeps the other tags in their order and repeats none |
| TaskModal.NewTag | frontend/src/components/tasks/TaskModal.tsx:64-72 | the appended tag's colour is a palette colour |
| TaskModal.AppendKeepsNoCaseDuplicates | frontend/src/components/tasks/TaskModal.tsx:55-62 | appending a tag whose lower-cased name matches no existing one keeps the list free of case duplicates |
| TaskModal.TaskForm.constructor | frontend/src/components/tasks/TaskModal.tsx:27-34 | the fields start from the task being edited, or empty; the status defaults to `"pending"` when there is no task or its status is empty |
| TaskModal.TaskForm.Resync | frontend/src/components/tasks/TaskModal.tsx:41-48 | a new task overwrites title, description, status (or `"pending"`) and tags; a null task leaves them alone; the tag input is never touched |
| TaskModal.TaskForm.AddTag | frontend/src/components/tasks/TaskModal.tsx:51-77 | a blank input changes nothing; a name equal to an existing one up to case is refused, leaving list and input unchanged; otherwise exactly one tag with the trimmed name and a palette colour is appended, earlier tags kept, input cleared; freedom from case duplicates is preserved |
| TaskModal.TaskForm.RemoveTag | frontend/src/components/tasks/TaskModal.tsx:80-83 | the list loses exactly the tags with that id; the other fields are unchanged; freedom from case duplicates is preserved |
| TaskModal.TaskForm.HandleKeyDown | frontend/src/components/tasks/TaskModal.tsx:86-94 | Enter with a non-blank input acts as `addTag`; Backspace with an empty input and some tags drops exactly the last tag; every other key leaves list and input unchanged |
| TaskModal.TaskForm.HandleSubmit | frontend/src/components/tasks/TaskModal.tsx:98-120 | a blank title yields no payload; otherwise the payload has the trimmed title, the trimmed description (absent when blank), the status, the tags, and an id exactly when editing; the modal closes exactly after a successful save |
| TaskModal.SubmitUnedited | frontend/src/components/tasks/TaskModal.tsx:25-120 | opening the form on a task and submitting it unchanged saves that task under its own id, with its trimmed title, its status (or `"pending"`) and its tags |
| LegacyTaskModal.LegacyTaskForm.constructor | frontend/src/components/TaskModal.tsx:12-17 | the same initial state as the newer form |
| LegacyTaskModal.LegacyTaskForm.Resync | frontend/src/components/TaskModal.tsx:21-28 | the same re-synchronisation as the newer form |
| LegacyTaskModal.LegacyTaskForm.AddTag | frontend/src/components/TaskModal.tsx:30-43 | a blank input changes nothing; any other input appends exactly one tag with the trimmed name and a palette colour, even when a same-named tag exists, and clears the input |
| LegacyTaskModal.LegacyTaskForm.RemoveTag | frontend/src/components/TaskModal.tsx:45-48 | the list loses exactly the tags with that id, the rest in order |
| LegacyTaskModal.LegacyTaskForm.HandleKeyDown | frontend/src/components/TaskModal.tsx:50-57 | Enter with a non-blank input adds a tag; Backspace with an empty input and some tags drops only the last tag; other keys change nothing |
| LegacyTaskModal.LegacyTaskForm.HandleSubmit | frontend/src/components/TaskModal.tsx:59-78 | a blank title yields no payload; otherwise trimmed title, trimmed or absent description, id only when editing |
| LegacyTaskModal.AddingCaseDuplicate | frontend/src/components/TaskModal.tsx:30-43 | when the input matches an existing tag up to case, which the newer form refuses, the list this form produces holds a case duplicate |
| CreateTask.CreateBody | frontend/src/components/CreateTask.tsx:45-53 | the body has the trimmed title and the status; the description becomes `null` exactly when it is empty and is otherwise sent untrimmed; each tag keeps its name and sends its own colour, or `#3b82f6` when it has none |
| CreateTask.CreateBodyColorsMapped | frontend/src/components/CreateTask.tsx:49-52 | a body built from palette-coloured tags carries only colours with their own badge classes |
| CreateTask.CreateTaskForm.constructor | frontend/src/components/CreateTask.tsx:7-13 | the page starts cleared |
| CreateTask.CreateTaskForm.AddTag | frontend/src/components/CreateTask.tsx:16-28 | a blank input changes nothing; any other input appends one tag with the trimmed name and a palette colour and clears the input |
| CreateTask.CreateTaskForm.RemoveTag | frontend/src/components/CreateTask.tsx:117 | the badge button removes exactly the tags with that id |
| CreateTask.CreateTaskForm.ClearForm | frontend/src/components/CreateTask.tsx:30-34 | title and description become empty, status `"pending"`, tags empty, tag input empty |
| CreateTask.CreateTaskForm.HandleSubmit | frontend/src/components/CreateTask.tsx:36-63 | a blank title sends nothing; otherwise the body for the form's contents is sent, with mapped colours only; the form is cleared exactly when the response is ok, and left as it was otherwise |
| Register.Criteria | frontend/src/components/auth/Register.tsx:17-20 | the four conditions the score counts, in order |
| Register.CountTrue | frontend/src/components/auth/Register.tsx:15-21 | the count is at most the number of conditions; it is the maximum exactly when all hold and 0 exactly when none does |
| Register.Strength | frontend/src/components/auth/Register.tsx:15-21 | the score lies in 0..4 |
| Register.StrengthAsSum | frontend/src/components/auth/Register.tsx:17-20 | the score is the sum of the four verdicts: length at least 8, an A-Z letter, a digit, a character outside A-Za-z0-9 |
| Register.GetPasswordStrength | frontend/src/components/auth/Register.tsx:15-22 | the step-by-step counter returns the score, which is at most 4 |
| Register.AppendKeepsCriteria | frontend/src/components/auth/Register.tsx:18-20 | appending a character keeps each character-class condition that held |
| Register.StrengthMonotone | frontend/src/components/auth/Register.tsx:17-20 | typing one more character never lowers the score |
| Register.StrengthExtremes | frontend/src/components/auth/Register.tsx:17-20 | the score is 4 exactly when all four conditions hold, and 0 exactly when none does |
| Register.StrengthLabel | frontend/src/components/auth/Register.tsx:122-126 | the index always falls inside the five labels; "Very strong" is shown exactly for a score of 4 |
| Register.StrengthColor | frontend/src/components/auth/Register.tsx:114-120 | red exactly for a score of at most 1, yellow exactly for 2, green exactly for 3 or more |
| Register.ColorMatchesLabel | frontend/src/components/auth/Register.tsx:114-126 | a green label is "Strong" or "Very strong", and a red one is "Very weak" or "Weak" |
| Register.HandleSubmit | frontend/src/components/auth/Register.tsx:25-43 | a score below 3 is refused; a strong password that differs from its confirmation is refused as a mismatch; otherwise `register` is called with the name, email and password |
| Register.WeaknessReportedFirst | frontend/src/components/auth/Register.tsx:30-38 | a weak password whose confirmation also differs is reported as weak |
| Profile.EmailCharacterised | frontend/src/components/pages/Profile.tsx:27-30 | the email pattern accepts exactly the strings with no white space and exactly one `@`, with text before it, and after it a `.` that is neither the first nor the last character |
| Profile.ValidNameHasTwoVisible | frontend/src/components/pages/Profile.tsx:32-34 | a name is valid exactly when it holds at least two characters that are not white space |
| Profile.NameValidityIgnoresPadding | frontend/src/components/pages/Profile.tsx:32-34 | white space around a name does not change its validity |
| Profile.GetPasswordStrength | frontend/src/components/pages/Profile.tsx:36-43 | the page's counter returns the sign-up form's score |
| Profile.StrengthCopiesAgree | frontend/src/components/pages/Profile.tsx:36-43 | the two copies of `getPasswordStrength` return the same score for every password |
| Profile.PasswordCheck | frontend/src/components/pages/Profile.tsx:134-157 | the rejections come in a fixed order: a current password shorter than 6, then a new one shorter than 8, then a score below 3, then a mismatch; the change goes ahead exactly when the button's condition holds |
| Profile.ChangeButtonMatchesHandler | frontend/src/components/pages/Profile.tsx:57-64 | the button is enabled exactly when no change is running and the handler would reject nothing |
| Profile.ProfileForm.constructor | frontend/src/components/pages/Profile.tsx:16-24 | name and email start from the session user; the password fields start empty |
| Profile.ProfileForm.HandleUpdateInfo | frontend/src/components/pages/Profile.tsx:46-129 | the name check, then the email check, then the no-change check; the availability request is sent exactly for a changed email with a token, with the trimmed lower-cased address; 409 reports it taken; a failed request reports failure; the button's condition holds exactly when none of the three checks rejects |
| Profile.ProfileForm.HandleChangePassword | frontend/src/components/pages/Profile.tsx:131-174 | the outcome is `PasswordCheck` of the fields; a rejection leaves every field as it was; a success clears all three password fields |
| TaskView.ReplaceById | frontend/src/components/tasks/TaskView.tsx:141-143 | the list keeps its length; each task whose id is the saved task's id becomes the saved task, and every other task stays |
| TaskView.ReplaceByIdKeepsIds | frontend/src/components/tasks/TaskView.tsx:143 | every position keeps its id |
| TaskView.ReplaceByIdIdempotent | frontend/src/components/tasks/TaskView.tsx:143 | saving the same task twice equals saving it once; a task whose id is absent changes nothing |
| TaskView.RemoveById | frontend/src/components/tasks/TaskView.tsx:153 | every remaining task is one of the list with another id, and every task with another id remains |
| TaskView.RemoveByIdKeepsOrder | frontend/src/components/tasks/TaskView.tsx:153 | deletion keeps the other tasks in order and repeats none |
| TaskView.CreateThenDelete | frontend/src/components/tasks/TaskView.tsx:141-154 | creating a task with a fresh id and then deleting it restores the list |
| TaskView.DeletedNotShown | frontend/src/components/tasks/TaskView.tsx:149-165 | whatever the search and status filter, a deleted task is not shown |
| TaskView.AfterSave | frontend/src/components/tasks/TaskView.tsx:141-145 | an update keeps the length and every position's id, and each task with the saved id becomes the saved task; a create puts the saved task at index 0, followed by the old list in order |
| TaskView.IndexOfDash | frontend/src/components/tasks/TaskView.tsx:73 | the position found holds a dash with no dash before it, and no position is found when there is no dash |
| TaskView.StatusLabelPointwise | frontend/src/components/tasks/TaskView.tsx:73 | the label has the status's length and differs from it only where the first dash becomes a space; later dashes stay |
| TaskView.StatusLabelNoDash | frontend/src/components/tasks/TaskView.tsx:73 | a status without a dash is shown unchanged |
| TaskView.StatusLabelFirstDash | frontend/src/components/tasks/TaskView.tsx:73 | with its first dash at `i`, the label is the status with that one character replaced by a space |
| TaskView.CardTags | frontend/src/components/tasks/TaskView.tsx:78-96 | no strip exactly for a task without tags; otherwise the first min(limit, n) tags, and an indicator counting exactly the tags left out, non-zero exactly when n exceeds the limit (2 on this page) |
| TaskView.TaskBoard.constructor | frontend/src/components/tasks/TaskView.tsx:111-116 | empty list, loading, empty search, status `"all"` |
| TaskView.TaskBoard.Load | frontend/src/components/tasks/TaskView.tsx:121-128 | without a token nothing happens; otherwise the list becomes the fetched tasks, or empty on failure, and loading ends |
| TaskView.TaskBoard.HandleSave | frontend/src/components/tasks/TaskView.tsx:132-146 | without a token, or when the API call fails, the list is unchanged; otherwise it becomes `AfterSave` of the old list |
| TaskView.TaskBoard.HandleDelete | frontend/src/components/tasks/TaskView.tsx:149-161 | the request is made exactly when there is a token; the tasks with that id are removed only after it succeeds |
| ViewTasks.StripsAgree | frontend/src/components/ViewTasks.tsx:69-87 | this page's three-tag strip extends the other page's two-tag strip, and both count the same tags in total |
| ViewTasks.TaskListPage.constructor | frontend/src/components/ViewTasks.tsx:96-99 | empty list, loading, empty search, status `"all"` |
| ViewTasks.TaskListPage.Load | frontend/src/components/ViewTasks.tsx:103-108 | the list becomes the fetched tasks, or empty on failure, and loading ends |
| ViewTasks.TaskListPage.HandleSave | frontend/src/components/ViewTasks.tsx:110-119 | a failed call changes nothing; otherwise an update replaces by id and a create prepends |
| ViewTasks.TaskListPage.HandleDelete | frontend/src/components/ViewTasks.tsx:121-125 | the request is made exactly when confirmed; when it succeeds exactly the tasks with that id are removed; otherwise nothing changes |
| TaskRoutes.StoredDescription | backend/src/routes/tasks.ts:50 | `null` exactly when the description is missing or blank; otherwise its trimmed text, which is non-empty and already trimmed |
| TaskRoutes.StoredStatus | backend/src/routes/tasks.ts:51 | the supplied string when non-empty, otherwise `"pending"`, so never empty; no other check is made |
| TaskRoutes.ConnectOrCreate | backend/src/routes/tasks.ts:56-62 | afterwards the name is in the tag table; an existing name leaves the table untouched; a new name adds one tag with the given colour, the next id and the current time |
| TaskRoutes.ResolveKeepsExisting | backend/src/routes/tasks.ts:52-66 | resolving a request's tags never changes or removes an existing tag |
| TaskRoutes.ResolveKeepsValid | backend/src/routes/tasks.ts:52-66 | tag ids stay unique, below the counter, and each stored under its own name |
| TaskRoutes.ResolveCoversIncoming | backend/src/routes/tasks.ts:52-66 | every incoming name ends up in the tag table |
| TaskRoutes.ResolveAddsOnlyIncoming | backend/src/routes/tasks.ts:52-66 | every name in the table afterwards was there before or came with the request |
| TaskRoutes.ResolveCreatesMissing | backend/src/routes/tasks.ts:58-61 | with distinct incoming names, a name that was absent gets a tag with its own colour, created now, with a fresh id |
| TaskRoutes.ResolveDistinct | backend/src/routes/tasks.ts:52-66 | the facts above combined for one request |
| TaskRoutes.Names | backend/src/routes/tasks.ts:54-57 | the names of the incoming tags, position by position |
| TaskRoutes.Flatten | backend/src/routes/tasks.ts:22-25 | the task's own fields are kept, and `tags` becomes the linked tag records, one per link and in link order |
| TaskRoutes.NewestFirst | backend/src/routes/tasks.ts:10-25 | every task, flattened, the most recently created first |
| TaskRoutes.NewestFirstIsSorted | backend/src/routes/tasks.ts:18 | the listed tasks have strictly decreasing creation times |
| TaskRoutes.AppendChronological | backend/src/routes/tasks.ts:47 | a task created with the next id at the current time keeps the table's ids unique and its creation times increasing |
| TaskRoutes.AppendLinksExist | backend/src/routes/tasks.ts:47-66 | the new task's links and all older links point at existing tags |
| TaskRoutes.FindTask | backend/src/routes/tasks.ts:94-96 | a position found holds that id, and none is found exactly when no task has it |
| TaskRoutes.RemoveAtChronological | backend/src/routes/tasks.ts:94-96 | removing a task keeps ids unique and creation times increasing |
| TaskRoutes.RemoveAtLinksExist | backend/src/routes/tasks.ts:94-96 | removing a task leaves every other link valid |
| TaskRoutes.RemoveAtKeepsOthers | backend/src/routes/tasks.ts:94-96 | removing the only task with an id leaves no task with it and keeps every other task |
| TaskRoutes.TaskStore.List | backend/src/routes/tasks.ts:8-32 | 200 with every task, flattened and newest first, sorted by decreasing creation time, with no per-user filter |
| TaskRoutes.TaskStore.Create | backend/src/routes/tasks.ts:35-87 | 400 exactly for a missing or blank title; 500 exactly for a repeated tag name in one request; both change nothing; otherwise 201 with one new task (trimmed title, stored description and status, fresh id, links to the resolved tags), existing tags unchanged, a tag created only for an incoming name not yet stored, with its own colour, the request's time and an id not handed out before; the tag table gains no other name |
| TaskRoutes.TaskStore.Delete | backend/src/routes/tasks.ts:90-103 | 500 exactly for an absent id, changing nothing; otherwise 200 and exactly that task removed; no task keeps the id, every other stays, tags are untouched |
| TaskRoutes.CreatedListedFirst | backend/src/routes/tasks.ts:8-87 | a task just created is the first one the list returns, with the same fields and tags |
| AuthRoutes.Hash | backend/src/routes/auth.ts:63-64 | a password matches the credential made from it |
| AuthRoutes.NormalizeEmailIdempotent | backend/src/routes/auth.ts:53-70 | normalising a stored address again changes nothing |
| AuthRoutes.NormalizeEmailCollides | backend/src/routes/auth.ts:25-27 | addresses that differ only in letter case or surrounding white space have one key |
| AuthRoutes.FindByEmail | backend/src/routes/auth.ts:25-27 | a position found holds that address, and none is found exactly when no user has it |
| AuthRoutes.FindById | backend/src/routes/auth.ts:159-160 | a position found holds that id, and none is found exactly when no user has it |
| AuthRoutes.AppendUserValid | backend/src/routes/auth.ts:67-73 | adding a user with a fresh address and the next id keeps addresses and ids unique |
| AuthRoutes.AppendUserNormalised | backend/src/routes/auth.ts:70 | adding a normalised address keeps every stored address normalised |
| AuthRoutes.RemoveUserValid | backend/src/routes/auth.ts:192-194 | removing a user keeps addresses and ids unique |
| AuthRoutes.RemoveUserNormalised | backend/src/routes/auth.ts:192-194 | removing a user keeps every stored address normalised |
| AuthRoutes.RemoveUserKeepsOthers | backend/src/routes/auth.ts:192-194 | removing the only user with an id leaves none with it and keeps every other user |
| AuthRoutes.RemoveUser | backend/src/routes/auth.ts:192-194 | the table invariant survives the removal: addresses and ids stay unique, addresses stay normalised, no user keeps the removed id, and every other user stays |
| AuthRoutes.UserTable.constructor | backend/src/routes/auth.ts:67-73 | an empty table satisfies the invariant |
| AuthRoutes.UserTable.Create | backend/src/routes/auth.ts:67-73 | the unique email column refuses a present address and changes nothing; otherwise exactly one user is appended with the next id and the current time |
| AuthRoutes.UserTable.DeleteById | backend/src/routes/auth.ts:192-194 | the delete succeeds exactly for a present id and removes that user only; an absent id changes nothing; afterwards no user has the id |
| AuthRoutes.CheckEmail | backend/src/routes/auth.ts:16-39 | 400 exactly for a missing, empty or non-string address; 409 with `available: false` exactly for a taken normalised address; otherwise 200 with `available: true`; the table is only read |
| AuthRoutes.Register | backend/src/routes/auth.ts:42-99 | 400 exactly when a field is missing or empty; 409 exactly for a taken normalised address; both leave the table unchanged; otherwise exactly one user with the trimmed name, normalised address and hashed password, and 201 with its id, name and email only |
| AuthRoutes.Login | backend/src/routes/auth.ts:102-154 | 400 exactly when a field is missing or empty; the same 401 "Invalid credentials" for an unknown address and for a wrong password; otherwise 200 with the user's id, name and email only |
| AuthRoutes.Me | backend/src/routes/auth.ts:157-180 | 404 exactly when the user is absent; otherwise 200 with id, name, email and the two timestamps, never the password |
| AuthRoutes.DeleteMe | backend/src/routes/auth.ts:189-203 | 500 exactly when the user is absent, changing nothing; otherwise 200 and that user removed; either way the id is absent afterwards |
| AuthRoutes.RegisteredEmailIsTaken | backend/src/routes/auth.ts:16-73 | after registering an address (or finding it taken), checking any address with the same normalised form answers 409 |
| AuthRoutes.RegisteredUserCanLogIn | backend/src/routes/auth.ts:42-154 | a user who just registered logs in with the same password and gets the same answer body |
| AuthRoutes.DeletedUserNotFound | backend/src/routes/auth.ts:157-194 | after `DELETE /me`, `GET /me` for that id answers 404 |
| AuthRoutes.BlankNameIsStored | backend/src/routes/auth.ts:47-69 | a name of white space passes the presence check and is stored empty |
| LegacyAuthRoutes.CheckEmail | backend/src/routes/auth.routes.ts:17-46 | 400 for a missing or empty address, 409 with `available: false` for a taken normalised address, 200 with `available: true` otherwise; the table is only read |
| LegacyAuthRoutes.Register | backend/src/routes/auth.routes.ts:49-90 | 400 when a field is missing, 409 for a taken normalised address, both without change; otherwise one user with trimmed name and normalised address, and 201 with id, name and email only |
| LegacyAuthRoutes.CheckEmailAgrees | backend/src/routes/auth.routes.ts:17-46 | the two routers answer every e-mail check alike |

## Left out

- Rendering, routing, toasts and focus handling: they decide nothing the model states.
- The network: every fetch result is a parameter, and so is every Prisma call's failure that
  the code catches. This covers the task helpers' fetch wrappers, `AuthContext` and the login
  page.
- Random palette index, `Date.now()` ids and `new Date()` timestamps: parameters. The palette
  index is required to be below 15.
- bcrypt: modelled as an ideal credential that matches exactly its own password. The salt is
  not modelled.
- JWT signing, the session cookie, `POST /logout` (it only clears the cookie) and the token
  middleware: the protected routes take the user id as a parameter.
- The 500 answers that come from a database failure (in `GET /`, `/check-email`,
  `/register`, `/login` and `POST /`): the in-memory tables never fail.
- Request bodies are typed: every field of a request body is either absent or a string, and
  `tags` of `POST /` is either absent or an array of `{ name, color }` objects whose `name`
  is a string. So the 500 answers that a wrongly typed but truthy field causes are not
  modelled. Examples: a numeric `email`, `name` or `password` in `/register` makes `trim` or
  `bcrypt.hash` throw; a boolean `email` in `/login` makes `trim` throw; a numeric `title`
  or `description`, or a string `tags`, makes `POST /` throw.
- `AuthRoutes.Register`, `AuthRoutes.Login`, `LegacyAuthRoutes.Register`: the "exactly"
  answers of their contracts (400, 409 or 401, and 201 or 200) hold for string fields only,
  as the previous line says; a truthy non-string field answers 500 in the source.
- `TaskRoutes.TaskStore.Create`: the 400/500/201 split holds for string fields and an array
  of tags only; a truthy field of another type answers 500 in the source.
- The cascade delete of a deleted user's tasks and of a task's tag links: the schema is not
  part of this model. Links are stored inside each task record.
- Profile's account deletion and logout: they only call into the session context.
- The backend's ids are counters (`nat`), not the strings Prisma generates. Creation times
  are a counter that each create advances.
- `TaskRoutes.TaskStore.Create`: a tag name repeated within one request is taken to fail the
  whole create with 500, since both links would have the same task and tag. The link table's
  key is not shown in the source.
- `TaskRoutes.TaskStore.Create`: the response lists the task's tags in request order, one
  per incoming tag. The source includes the link rows without an `orderBy`, so the database
  may return them in another order, for instance by the link table's key. The model fixes
  request order.
- `TaskRoutes.TaskStore.Create`: a new tag sent without a colour is stored with no colour
  (`None`). This holds only if the schema gives the colour column no default; the schema is
  not part of this model.
- `JsStrings.Lower`: covers ASCII letters only, and `\s`/`trim` use the ECMAScript
  white-space set. String lengths count Unicode scalar values, not UTF-16 units.
- `Profile.ProfileForm.HandleUpdateInfo`: any availability answer other than 409 counts as
  success, because the code does no update. This includes errors such as 400 or 500, and it
  is modelled so.
- `Register.HandleSubmit`: what `register` does with the request is not modelled. The
  client's form sends the name and email untrimmed.
- The card's tag badges use `getTagColors`, which is modelled in `ColorMap`. The badge
  markup is not modelled.
- Both modals: Enter on a blank tag input is not intercepted by `handleKeyDown`, so the
  browser submits the form. The model only states that the tag list is unchanged.
- `CreateTask.CreateBody` sends the description untrimmed. This follows the code.

## Findings

| source | as written | input that shows it | evidently intended | confidence | as-written member | corrected member |
|---|---|---|---|---|---|---|
| frontend/src/utils/colorMap.ts:37-38 | `COLOR_MAP[color ?? "#3b82f6"] \|\| fallback` indexes a plain object, so a colour equal to an inherited property name yields that inherited member, which is truthy | a tag whose colour is `"toString"`: the API stores any colour string it is sent | the blue fallback for every colour that is not a key of the table | not executed | ColorMap.GetTagColorsAsWritten, ColorMap.AsWrittenMissesFallback | ColorMap.GetTagColors |
