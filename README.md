# To-Do-App task domain in Dafny

This project models the task domain of the To-Do-App, a MERN task manager. Its server is Express, Mongoose and yup. Its client is React.

On the server the model covers:

- the task schema: enumerations, defaults, required fields, trim on assignment, ObjectId and date casts, and timestamps;
- the yup request schemas for tasks, sign-up and log-in;
- the `validate` middleware, which folds all violations into one message per field;
- the task controller: role scoping, date windows, sort orders, the create defaults, the partial-update rules, and the completion-time side effect;
- the admin aggregations.

On the client it covers the logic of six pages:

- the Kanban drag state machine;
- the task modal's schema, payload cleanup and error precedence;
- the sign-up form;
- the dashboard's week-over-week classification and chart data;
- the user table's stats lookup and completion rate;
- the title search and the toggle-complete button.

Time is an integer (milliseconds). The current instant (`now`), local midnight of today (`startOfToday`, `today`) and the midnight fixed when a validation module was loaded (`loadMidnight`) are parameters.

A JSON field is `Absent` (undefined), `Null` or `Str(s)`. A date field also carries the parser's verdict, because the date parser itself is not modelled. The e-mail test of yup is a parameter (`isEmail`). So is the client's date parser (`parseDate`).

Files by module:

- `text.dfy`: the string operations the code relies on.
- `field_errors.dfy`: (path, message) violations and the error object built from them.
- `schema_rules.dfy`: the building blocks of the yup schemas.
- `requests.dfy`: request bodies and the actor.
- `task_model.dfy`: `server/models/Task.js`.
- `task_validation.dfy`: `server/validation/taskValidation.js`.
- `auth_validation.dfy`: `server/validation/authValidation.js`.
- `validate_middleware.dfy`: `server/middleware/validate.js`.
- `task_controller.dfy`: `server/controllers/taskController.js`. It holds a `TaskStore` class, a sequence of tasks that the handlers change in place.
- `admin_controller.dfy`: `server/controllers/adminController.js`.
- `client_task.dfy`: the task cards the client pages hold.
- `kanban_board.dfy`, `task_modal.dfy`, `signup_page.dfy`, `admin_dashboard.dfy`, `admin_users.dfy`, `all_tasks.dfy`: one module per page. A stateful component is a class whose methods are its handlers.

Where the design and the code disagree, the model follows the code:

- A supplied empty description is stored as `""`. It is not removed.
- Any role may set `assignedTo` to another user on create. Only update checks for an admin.
- `dueDate` is optional in the Mongoose schema. Only the create request schema requires it.
- Validation does not rewrite the request. The body reaching the controller is the raw body, so only the Mongoose trim of title and description applies.

## Model

| member | source | states |
|---|---|---|
| Text.Trim | server/validation/taskValidation.js:8 | the result has no white space at either end; the input is the result with only white space before and after it |
| Text.TrimIdempotent | server/models/Task.js:7 | trimming a trimmed text changes nothing, so a stored title stays as stored |
| Text.TrimUnchanged | server/models/Task.js:7 | a text with no white space at either end is its own trim |
| Text.ToLower | client/src/pages/AllTasks.jsx:26 | same length; upper-case ASCII letters become lower case, every other character is kept |
| Text.ContainsEmpty | client/src/pages/AllTasks.jsx:26 | every title includes the empty text |
| Text.LexLeTotal | server/controllers/taskController.js:82 | binary string order is total, so any two priority texts are ordered |
| Text.LexLeTransitive | server/controllers/taskController.js:82 | binary string order is transitive |
| FieldErrors.ErrorMap | server/middleware/validate.js:13-17 | the folded error object has exactly one key per path that has a violation |
| FieldErrors.ErrorMapLastWins | server/middleware/validate.js:15 | each key holds the message of the last violation for that path |
| FieldErrors.Collect | client/src/components/TaskModal.jsx:111-114 | the forEach loop builds exactly the folded error object |
| SchemaRules.Check | server/validation/taskValidation.js:9-10 | a test adds one violation at its path exactly when its condition fails |
| SchemaRules.LastMessageWins | server/middleware/validate.js:15 | a field followed only by other fields keeps its last message in the error object |
| TaskModel.ParseStatus | server/models/Task.js:20-24 | a text is a valid status exactly when it is the name of one of pending, in-progress, completed |
| TaskModel.ParsePriority | server/models/Task.js:25-29 | a text is a valid priority exactly when it names low, medium or high |
| TaskModel.ParseCategory | server/models/Task.js:14-19 | a text is a valid category exactly when it names Home, Personal, Office or Other |
| TaskModel.SetTrimmed | server/models/Task.js:4-12 | a string assigned to title or description is stored trimmed; undefined and null store nothing |
| TaskModel.SetWithDefault | server/models/Task.js:14-29 | a missing key takes the schema default, null clears the path, a string is stored as given |
| TaskModel.SetDate | server/models/Task.js:13 | an empty or null date clears the path, a parsed one is stored, an unparsable one becomes a cast failure |
| TaskModel.SetObjectId | server/models/Task.js:30-33 | the cast succeeds exactly for 24 hex characters and yields the lower-case hex id; otherwise the raw text is reported |
| TaskModel.TitleViolations | server/models/Task.js:6 | required fails exactly for a missing or empty title, with "Task title is required" |
| TaskModel.CategoryViolations | server/models/Task.js:16-17 | category fails exactly when it is missing or not in the enum; at most one message |
| TaskModel.EnumViolations | server/models/Task.js:20-29 | an enum path fails exactly when its value is null or not valid; at most one message |
| TaskModel.CastViolations | server/models/Task.js:13 | a date path fails exactly when its cast failed |
| TaskModel.IdCastViolations | server/models/Task.js:30-33 | an ObjectId path fails exactly when its cast failed |
| TaskModel.SchemaViolations | server/models/Task.js:3-41 | a document has no violation exactly when its title is present, its category, status and priority are in their enums, and every cast succeeded |
| TaskModel.Save | server/models/Task.js:3-41 | saved exactly when there is no violation; else the ValidationError lists them all; a saved task holds every document value, with updatedAt = now |
| TaskModel.SchemaViolationPathsDistinct | server/models/Task.js:3-41 | a ValidationError has at most one message per path |
| TaskModel.SaveLoadedRoundTrip | server/models/Task.js:3-41 | loading a stored task and saving it again writes the same task, with only updatedAt changed |
| TaskValidation.CreateTitleViolations | server/validation/taskValidation.js:5-10 | create: the title passes exactly when it is a string whose trimmed length is 3 to 200 |
| TaskValidation.UpdateTitleViolations | server/validation/taskValidation.js:51-56 | update: the title passes when it is absent, or a string whose trimmed length is 3 to 200; null fails |
| TaskValidation.DescriptionViolations | server/validation/taskValidation.js:12-18 | the description passes exactly when it is absent, null, empty, or at most 1000 characters once trimmed |
| TaskValidation.CreateDueDateViolations | server/validation/taskValidation.js:20-23 | create: the due date passes exactly when it is a non-empty text that parses to an instant at or after the load-time midnight |
| TaskValidation.UpdateDueDateViolations | server/validation/taskValidation.js:66-68 | update: the due date passes exactly when it is absent or a non-empty text that parses, with no lower bound |
| TaskValidation.EmptyDateRejected | server/validation/taskValidation.js:66-68 | an empty due-date text fails the date type test of both schemas, whatever the parser makes of it |
| TaskValidation.CreateCategoryViolations | server/validation/taskValidation.js:25-28 | create: the category passes exactly when it is one of the four names; any other text, the empty one included, gets only "Invalid category" |
| TaskValidation.CategoryEnum | server/validation/taskValidation.js:70-73 | update: the category passes exactly when it is absent or one of the four names |
| TaskValidation.PriorityEnum | server/validation/taskValidation.js:30-33 | the priority passes exactly when it is absent or low, medium or high |
| TaskValidation.StatusEnum | server/validation/taskValidation.js:35-38 | the status passes exactly when it is absent or pending, in-progress or completed |
| TaskValidation.AssignedToViolations | server/validation/taskValidation.js:40-45 | the assignee passes exactly when it is absent, null, empty, or 24 hex characters |
| TaskValidation.CreateTaskViolations | server/validation/taskValidation.js:3-47 | createTaskSchema reports no violation exactly for the bodies that meet every field rule |
| TaskValidation.UpdateTaskViolations | server/validation/taskValidation.js:49-92 | updateTaskSchema reports no violation exactly for the bodies that meet every optional field rule |
| TaskValidation.CreateAcceptedIsUpdateAccepted | server/validation/taskValidation.js:49-92 | every body the create schema accepts, the update schema accepts too |
| TaskValidation.UpdateAcceptsPastDueDate | server/validation/taskValidation.js:66-68 | a due date before the load-time midnight fails create and passes update |
| AuthValidation.NameViolations | server/validation/authValidation.js:5-10 | the name passes exactly when it is a string whose trimmed length is 2 to 100 |
| AuthValidation.NormalEmail | server/validation/authValidation.js:15-16 | the text the e-mail tests see is no longer than the input and has no upper-case ASCII letter |
| AuthValidation.EmailViolations | server/validation/authValidation.js:12-17 | the e-mail passes exactly when its lower-cased, trimmed text is non-empty and an e-mail; an empty one is reported only as missing |
| AuthValidation.PasswordViolations | server/validation/authValidation.js:19-27 | the password passes exactly when its length is 6 to 100, it has a lower-case letter, an upper-case letter and a digit, and it has no line break |
| AuthValidation.RoleViolations | server/validation/authValidation.js:29-32 | the role passes exactly when it is absent, "user" or "admin" |
| AuthValidation.SignupViolations | server/validation/authValidation.js:3-34 | signupSchema accepts exactly the bodies all four field rules accept |
| AuthValidation.LoginPasswordViolations | server/validation/authValidation.js:45-47 | the log-in password passes exactly when it is a non-empty string |
| AuthValidation.LoginViolations | server/validation/authValidation.js:36-49 | loginSchema accepts exactly a valid e-mail with a non-empty password |
| AuthValidation.SignupPasswordPassesLogin | server/validation/authValidation.js:45-47 | every password sign-up accepts, log-in accepts |
| AuthValidation.EmptyPasswordViolations | server/validation/authValidation.js:19-27 | an empty password fails required, min and the pattern, in that order |
| ValidateMiddleware.StripLocation | server/middleware/validate.js:14 | one leading "body.", "query." or "params." is removed; any other path is kept |
| ValidateMiddleware.StripBodyField | server/middleware/validate.js:14 | a body field reported as "body.f" is keyed as f |
| ValidateMiddleware.Stripped | server/middleware/validate.js:13-14 | each violation keeps its message, and its path loses the location prefix |
| ValidateMiddleware.Validate | server/middleware/validate.js:1-24 | no violation passes the body on unchanged; otherwise 400 "Validation failed" with a non-empty map keyed by the stripped paths |
| ValidateMiddleware.KeysOfStripped | server/middleware/validate.js:13-17 | the error keys are exactly the stripped paths of the violations |
| ValidateMiddleware.CreateErrorKeys | server/middleware/validate.js:13-17 | a body rejected on create has exactly one key per failing field, named without "body." |
| ValidateMiddleware.ShortTitleRejected | server/validation/taskValidation.js:8-9 | a title of 1 or 2 characters once trimmed gives errors.title = "Title must be at least 3 characters", whatever the other fields hold |
| ValidateMiddleware.ShortTitleViolation | server/validation/taskValidation.js:8-9 | such a title fails the min test only |
| TaskController.Select | server/controllers/taskController.js:53 | find keeps every matching task as often as it is stored, and nothing else |
| TaskController.SortBy | server/controllers/taskController.js:56 | the result is ordered by the key and is a permutation of the input |
| TaskController.Insert | server/controllers/taskController.js:56 | inserting into a sorted list keeps it sorted and adds exactly that task |
| TaskController.PriorityTextOrder | server/controllers/taskController.js:82 | sorting the priority text descending puts medium before low before high, never the reverse |
| TaskController.NewDoc | server/controllers/taskController.js:5-15 | the new document is pending with no completion time; createdBy is the actor; assignedTo is the truthy id given, else the actor |
| TaskController.CreateResult | server/controllers/taskController.js:7-30 | create saves exactly the savable bodies; otherwise a non-empty error list with distinct paths |
| TaskController.CreatedTaskOwnership | server/controllers/taskController.js:5-15 | a new task is pending, not completed, created by the actor, and assigned to the lower-cased id given or the actor |
| TaskController.CreatedTaskContent | server/controllers/taskController.js:7-12 | a new task holds the trimmed texts, the due date, and the category and priority given or their defaults |
| TaskController.CreateAcceptedSaves | server/controllers/taskController.js:22-30 | a body the create schema accepted always saves, so the ValidationError branch is unreachable after validation |
| TaskController.ApplyUpdate | server/controllers/taskController.js:166-187 | the update saves exactly when every supplied value is one Mongoose accepts; otherwise distinct-path errors |
| TaskController.UpdatedTaskKeeps | server/controllers/taskController.js:170 | id, creator and creation time never change, updatedAt becomes now, a falsy due date keeps the stored one |
| TaskController.UpdatedTaskTexts | server/controllers/taskController.js:168-169 | a falsy title keeps the old one; a description is replaced unless undefined; both stay trimmed |
| TaskController.UpdatedTaskChoices | server/controllers/taskController.js:171-185 | falsy category, priority and status keep the stored value; only an admin's truthy assignedTo reassigns |
| TaskController.UpdatedCompletion | server/controllers/taskController.js:174-181 | "completed" stamps now unless already stamped; another status clears it; no status leaves it; consistency is preserved |
| TaskController.UpdateAcceptedSaves | server/controllers/taskController.js:195-201 | a body the update schema accepted always saves |
| TaskController.IndexOf | server/controllers/taskController.js:156 | the position of the task stored under an id, or none exactly when no task has it |
| TaskController.FindById | server/controllers/taskController.js:136 | a text that is not 24 hex characters throws the ObjectId CastError; any other finds the task whose id is its lower-case form, or none exactly when no task has it |
| TaskController.RemoveAt | server/controllers/taskController.js:218 | deleting keeps every other task and ids stay unique |
| TaskController.TaskStore.CreateTask | server/controllers/taskController.js:3-33 | the saved task is appended, or the error map is returned and the store is unchanged; the store invariant is kept |
| TaskController.TaskStore.GetTasks | server/controllers/taskController.js:35-62 | newest first, holding exactly the in-scope tasks of the given status whose title contains the search, ignoring case |
| TaskController.TaskStore.GetTodayTasks | server/controllers/taskController.js:64-88 | exactly the in-scope tasks due in [startOfToday, startOfToday + 1 day), sorted by priority text descending |
| TaskController.TaskStore.GetCompletedTasks | server/controllers/taskController.js:90-107 | exactly the in-scope completed tasks, latest completion first |
| TaskController.TaskStore.GetOverdueTasks | server/controllers/taskController.js:109-132 | exactly the in-scope tasks due before today's midnight and not completed, earliest due first |
| TaskController.TaskStore.GetTaskById | server/controllers/taskController.js:134-152 | 500 with the CastError message exactly for a malformed id; 404 exactly when no task has its lower-case form; 403 exactly when a "user" is not the assignee; otherwise that task |
| TaskController.TaskStore.UpdateTask | server/controllers/taskController.js:154-204 | 500 for a malformed id, then 404, then 403, then save: only a saved update changes the store, and only at that task's position |
| TaskController.TaskStore.DeleteTask | server/controllers/taskController.js:206-223 | 500 for a malformed id, then 404, then 403, and only then removal of exactly that task; otherwise the store is unchanged |
| TaskController.TaskStore.PostTask | server/routes/taskRoutes.js:20 | a rejected body answers the stripped error map and stores nothing; an accepted one is always stored |
| TaskController.TaskStore.PutTask | server/routes/taskRoutes.js:27 | a rejected body answers 400 before the id is cast; for an accepted one a malformed id gives 500, then 404 and 403 as in updateTask, and otherwise the update always saves and replaces that task |
| AdminController.CountCreatedIn | server/controllers/adminController.js:21-27 | counts tasks created in [from, to): at most all tasks, none for an empty window |
| AdminController.CountCreatedSplit | server/controllers/adminController.js:14-27 | two adjacent windows count exactly what their union counts |
| AdminController.CountCreatedIgnoresLater | server/controllers/adminController.js:21-23 | tasks created at or after the end of a window are not counted |
| AdminController.TwoWeeks | server/controllers/adminController.js:13-27 | the two weeks together count the last 14 days; a task created today is in neither |
| AdminController.AverageHundredths | server/controllers/adminController.js:29 | 0 without users; otherwise tasksLastWeek / totalUsers rounded half up to hundredths |
| AdminController.CountStatus | server/controllers/adminController.js:31-38 | a status's count is at least 1 exactly when some task has it |
| AdminController.Entry | server/controllers/adminController.js:31-38 | a status has one group with its count when it occurs, none otherwise |
| AdminController.StatusDistribution | server/controllers/adminController.js:31-49 | every entry has count at least 1 equal to its status's count, and every occurring status has an entry |
| AdminController.DistributionDistinct | server/controllers/adminController.js:31-38 | no status appears twice in the distribution |
| AdminController.DistributionTotal | server/controllers/adminController.js:31-38 | the three status counts sum to the number of tasks |
| AdminController.DistributionSumsToTotal | server/controllers/adminController.js:6 | the distribution's counts sum to totalTasks |
| AdminController.GetDashboardStats | server/controllers/adminController.js:4-54 | totals are the collection sizes; the two weeks sum to at most totalTasks; the distribution sums to totalTasks; the average is 0 without users |
| AdminController.GetAllUsers | server/controllers/adminController.js:56-63 | every user, in order, with all fields but the password |
| AdminController.GetAllTasksAdmin | server/controllers/adminController.js:65-76 | every task, unscoped, newest first |
| AdminController.Assignees | server/controllers/adminController.js:82-83 | the group ids are exactly the assignees, each once |
| AdminController.CountAssigned | server/controllers/adminController.js:84 | an assignee's total is at least 1 exactly when they have a task |
| AdminController.StatusCountsBounded | server/controllers/adminController.js:84-91 | completed, pending and in-progress counts sum to the total, so completed + pending never exceeds it |
| AdminController.FindUser | server/controllers/adminController.js:93-100 | the lookup finds a user with that id, or reports that there is none |
| AdminController.RowsOf | server/controllers/adminController.js:93-113 | groups without a user are dropped, each kept group is joined with its user, distinct ids give distinct rows |
| AdminController.GetUserTaskStats | server/controllers/adminController.js:78-120 | one row per assignee who is a user, with that user's name and e-mail and the assignee's counts; no user twice |
| AdminDashboard.WeekTrend | client/src/pages/AdminDashboard.jsx:238-271 | each message holds exactly in its case; the increase and decrease percentages are the change over previous × 100; missing figures give no change |
| AdminDashboard.DecreaseOf | client/src/pages/AdminDashboard.jsx:257-268 | a decrease is between 0 and 100 per cent |
| AdminDashboard.WeekComparison | client/src/pages/AdminDashboard.jsx:52-55 | two bars, last week then previous week, with 0 for missing figures |
| AdminDashboard.StatusData | client/src/pages/AdminDashboard.jsx:44-48 | empty without figures; otherwise one slice per entry, named by status, valued by count |
| AdminDashboard.SlicesTotal | client/src/pages/AdminDashboard.jsx:44-48 | the slices add up to the distribution's counts |
| AdminDashboard.PieCoversAllTasks | client/src/pages/AdminDashboard.jsx:44-48 | with the server's figures the slices add up to the number of tasks, and each is at least 1 |
| AdminUsers.GetUserStats | client/src/pages/AdminUsers.jsx:30-40 | the counts of the first row for the user, zeros when there is none |
| AdminUsers.CompletionRate | client/src/pages/AdminUsers.jsx:93-100 | 0 without tasks; otherwise completed / total × 100 rounded half up; at most 100 when completed ≤ total |
| AdminUsers.TableRows | client/src/pages/AdminUsers.jsx:91-92 | one row per user in order, with the user's fields and looked-up counts |
| AdminUsers.TableShowsServerCounts | client/src/pages/AdminUsers.jsx:91-100 | with the server's lists every user's row shows their assigned, completed and pending counts and a rate of at most 100 |
| AdminUsers.StatsOfUser | client/src/pages/AdminUsers.jsx:30-40 | the counts looked up for a user are that user's server-side counts, zeros included |
| AdminUsers.Page.constructor | client/src/pages/AdminUsers.jsx:7-9 | empty lists, loading |
| AdminUsers.Page.FetchData | client/src/pages/AdminUsers.jsx:15-28 | both lists on success, both kept on failure; loading ends |
| AllTasks.Matching | client/src/pages/AllTasks.jsx:25-27 | keeps exactly the cards whose lower-cased title contains the lower-cased term, as often as listed |
| AllTasks.MatchingConcat | client/src/pages/AllTasks.jsx:25-27 | the filter keeps list order |
| AllTasks.MatchingEmpty | client/src/pages/AllTasks.jsx:25-31 | filtering by the empty term would keep the whole list |
| AllTasks.SearchFilter | client/src/pages/AllTasks.jsx:22-32 | the empty term gives the list itself; otherwise exactly the matching cards |
| AllTasks.Toggle | client/src/pages/AllTasks.jsx:73 | completed becomes pending, anything else becomes completed; the result is a valid status |
| AllTasks.ToggleTwice | client/src/pages/AllTasks.jsx:73 | toggling twice restores pending and completed but turns in-progress into pending |
| AllTasks.ToggleRequest | client/src/pages/AllTasks.jsx:75 | the request names the card and carries only the toggled status |
| AllTasks.ToggleParses | client/src/pages/AllTasks.jsx:73 | the toggled text names the other status |
| AllTasks.ToggleOnServer | client/src/pages/AllTasks.jsx:72-76 | the toggle body passes updateTaskSchema, saves, flips the status and completion time, and changes nothing else |
| AllTasks.AllTasksPage.constructor | client/src/pages/AllTasks.jsx:10-16 | empty list and term, loading, filter in effect |
| AllTasks.AllTasksPage.RefreshFilter | client/src/pages/AllTasks.jsx:22-32 | filteredTasks becomes the search filter of tasks |
| AllTasks.AllTasksPage.SetSearchTerm | client/src/pages/AllTasks.jsx:12 | the term is stored and the filter re-applied |
| AllTasks.AllTasksPage.FetchTasks | client/src/pages/AllTasks.jsx:34-44 | the fetched list on success, the old one on failure; loading ends; the filter still holds |
| AllTasks.AllTasksPage.ToggleComplete | client/src/pages/AllTasks.jsx:72-80 | sends the toggle request; refetches only on success |
| ClientTask.RequestBody | client/src/pages/AllTasks.jsx:75 | a status request's body carries the status and leaves every other field out |
| ClientTask.FindCard | client/src/pages/KanbanBoard.jsx:245 | the first card with that id, or none exactly when no card has it |
| ClientTask.WithStatus | client/src/pages/KanbanBoard.jsx:264-270 | the cards with that id get the new status; every other card is unchanged; same length |
| ClientTask.WithStatusFindOther | client/src/pages/KanbanBoard.jsx:264-270 | after the map any other id finds what it found before |
| ClientTask.WithStatusFindSame | client/src/pages/KanbanBoard.jsx:264-270 | after the map the id finds its card with the new status |
| KanbanBoard.TasksByStatus | client/src/pages/KanbanBoard.jsx:335-337 | exactly the cards with that status, as often as listed |
| KanbanBoard.TasksByStatusConcat | client/src/pages/KanbanBoard.jsx:335-337 | the column filter keeps list order |
| KanbanBoard.ColumnsPartition | client/src/pages/KanbanBoard.jsx:375-379 | when every status is a column, the three columns hold every card exactly once |
| KanbanBoard.DragOverTasks | client/src/pages/KanbanBoard.jsx:253-272 | the dragged card takes the hovered column's status exactly when it is found and the target is a column other than its status; in every other case the list is unchanged |
| KanbanBoard.ResolveTarget | client/src/pages/KanbanBoard.jsx:286-308 | column data first, then the sortable container, then the hovered card, then a column id |
| KanbanBoard.DragEndTarget | client/src/pages/KanbanBoard.jsx:283-311 | a status is sent exactly when there is a target, an original status, and a resolved status different from it |
| KanbanBoard.DropTargets | client/src/pages/KanbanBoard.jsx:290-295 | dropping on a column or on a card in it targets that column |
| KanbanBoard.OriginalStatusDecides | client/src/pages/KanbanBoard.jsx:310-311 | after the drag-over preview, dropping on the new column still sends it, and dropping back on the original sends nothing |
| KanbanBoard.Board.constructor | client/src/pages/KanbanBoard.jsx:165-170 | no tasks, no drag, loading |
| KanbanBoard.Board.FetchTasks | client/src/pages/KanbanBoard.jsx:202-211 | the fetched list on success, the old one on failure; loading ends |
| KanbanBoard.Board.DragStart | client/src/pages/KanbanBoard.jsx:244-251 | records the active id, and the dragged card's status when it is found |
| KanbanBoard.Board.DragOver | client/src/pages/KanbanBoard.jsx:253-272 | the list becomes the drag-over preview; the drag state is kept |
| KanbanBoard.Board.DragEnd | client/src/pages/KanbanBoard.jsx:274-333 | always clears the drag state; sends the resolved status only on a real change, then moves the card and refetches |
| KanbanBoard.DragToColumn | client/src/pages/KanbanBoard.jsx:244-333 | a whole drag to another column sends that column and moves only that card |
| TaskModal.Set | client/src/components/TaskModal.jsx:81 | one input takes the value, the others keep theirs |
| TaskModal.TitleViolations | client/src/components/TaskModal.jsx:9-13 | the title passes exactly when its untrimmed length is 3 to 200 |
| TaskModal.DescriptionViolations | client/src/components/TaskModal.jsx:14-16 | the description passes exactly when it has at most 1000 characters |
| TaskModal.DueDateViolations | client/src/components/TaskModal.jsx:17-21 | the date passes exactly when it parses and is at or after the load-time midnight; at most one message |
| TaskModal.CategoryViolations | client/src/components/TaskModal.jsx:22-25 | passes exactly for a name in the enum; any other text, the empty one included, gets only the oneOf message |
| TaskModal.PriorityViolations | client/src/components/TaskModal.jsx:26-29 | passes exactly for a name in the enum; any other text, the empty one included, gets only the oneOf message |
| TaskModal.StatusViolations | client/src/components/TaskModal.jsx:30-33 | passes exactly for a name in the enum; any other text, the empty one included, gets only the oneOf message |
| TaskModal.FormViolations | client/src/components/TaskModal.jsx:8-34 | no violation exactly for the forms meeting every field rule; assignedTo is not checked |
| TaskModal.EmptyTitleShowsMinMessage | client/src/components/TaskModal.jsx:9-13 | an empty title shows the length message, the later of its two failures |
| TaskModal.Cleaned | client/src/components/TaskModal.jsx:97-103 | assignedTo and description are dropped exactly when empty; every other field is kept |
| TaskModal.ClientAcceptedIsServerAccepted | client/src/components/TaskModal.jsx:8-34 | an accepted form with an untrimmed-clean title and an empty or valid assignee passes createTaskSchema too |
| TaskModal.PaddedTitleGap | client/src/components/TaskModal.jsx:9-13 | a 3-character title starting with white space passes the form and fails the server |
| TaskModal.FailureErrors | client/src/components/TaskModal.jsx:116-125 | the server's errors, else its message as general, else the fixed message |
| TaskModal.Modal.constructor | client/src/components/TaskModal.jsx:38-48 | the empty form, no errors |
| TaskModal.Modal.Change | client/src/components/TaskModal.jsx:79-86 | stores the input and clears only that input's error |
| TaskModal.Modal.Close | client/src/components/TaskModal.jsx:129-141 | the empty form, no errors, closed |
| TaskModal.Modal.Submit | client/src/components/TaskModal.jsx:88-127 | saves exactly an accepted form, with the cleaned payload; a rejected form fills the error map; failures set the precedence errors; success closes |
| SignupPage.Set | client/src/pages/Signup.jsx:53 | one input takes the value, the others keep theirs |
| SignupPage.NameViolations | client/src/pages/Signup.jsx:9-13 | the name passes exactly when its untrimmed length is 2 to 100 |
| SignupPage.EmailViolations | client/src/pages/Signup.jsx:14-17 | the e-mail passes exactly when non-empty and an e-mail; an empty one only as missing |
| SignupPage.PasswordViolations | client/src/pages/Signup.jsx:18-26 | length 6 to 100 and the lower, upper and digit pattern |
| SignupPage.ConfirmViolations | client/src/pages/Signup.jsx:27-30 | the confirmation passes exactly when non-empty and equal to the password; a mismatch gets only "Passwords must match", an empty pair only the required message |
| SignupPage.RoleViolations | client/src/pages/Signup.jsx:31-34 | the role passes exactly when it is "user" or "admin"; any other text, the empty one included, gets only "Invalid role" |
| SignupPage.FormViolations | client/src/pages/Signup.jsx:8-35 | no violation exactly for the forms meeting every field rule |
| SignupPage.MismatchShowsMatchMessage | client/src/pages/Signup.jsx:27-30 | a confirmation unlike the password shows "Passwords must match", even when it is empty |
| SignupPage.ClientAcceptedIsServerAccepted | client/src/pages/Signup.jsx:8-35 | an accepted form whose name and e-mail are already normal passes the server's signupSchema |
| SignupPage.FailureMessage | client/src/pages/Signup.jsx:88 | the API message, else the error's message, else the fixed fallback; never empty |
| SignupPage.Destination | client/src/pages/Signup.jsx:77 | admins go to the dashboard, everyone else to the tasks |
| SignupPage.Page.constructor | client/src/pages/Signup.jsx:38-47 | the initial form, no errors, not loading |
| SignupPage.Page.Change | client/src/pages/Signup.jsx:51-58 | stores the input and clears only that input's error |
| SignupPage.Page.Submit | client/src/pages/Signup.jsx:60-94 | calls signup exactly for an accepted form; a rejected one fills the field errors; then navigates or shows one message; loading ends |

## Left out

- Outbound e-mail (`server/utils/emailService.js`) is I/O through a foreign library.
- HTTP wiring, routing, CORS and the `protect` and `adminOnly` middleware are framework code. The actor's id and role are inputs. `models/User.js` and `controllers/authController.js` are not part of this model.
- `populate` is left out. It adds assignee and creator names to responses. So is the crash in getTaskById when the populated assignee is null (server/controllers/taskController.js:144). The model compares ids directly.
- The clock, the local time zone and daylight-saving shifts of `setHours`/`setDate` are left out. `now`, `startOfToday` and `loadMidnight` are parameters, and one day is 86 400 000 ms.
- TaskController.TaskStore.GetTasks: the search is a literal substring match, case-insensitive over ASCII only. It is not a regular expression.
- yup's e-mail test and the client's date parser are parameters.
- The server's date parsing is a verdict carried by each date value. One verdict stands for both yup's `date()` cast and Mongoose's date cast, so the two are assumed to agree on every non-empty text. TaskController.CreateAcceptedSaves and TaskController.UpdateAcceptedSaves depend on that. The password regular expression is modelled as character-class tests.
- AdminController.AverageHundredths: this is whole hundredths rounded half up. `toFixed(2)` works on binary floating point and returns a string, which the model does not reproduce.
- AdminDashboard.WeekTrend: the percentage is the exact rational value. The `toFixed(0)` rounding and the bar widths are left out. A bar width is NaN when both weeks are 0.
- AdminUsers.CompletionRate: this is the whole percentage rounded half up. The floating-point quirks of `toFixed(0)` and its string result are left out.
- A JSON field is absent, null or a string. Numbers, booleans, arrays and objects in a request body are not modelled.
- Lower-casing covers ASCII letters only. Full Unicode `toLowerCase` is not modelled.
- An ObjectId cast accepts exactly 24 hex characters. The 12-byte-string form Mongoose also accepts is left out.
- The exact text of yup's type-error messages and of Mongoose's CastError messages is approximated.
- TaskModel.EnumViolations: null on an optional enum path is reported as an enum failure, with the enum message.
- The order of equal keys under `.sort` is not fixed by MongoDB, so contracts state order and contents, not tie order.
- AdminController.StatusDistribution: the order of `$group` output is not fixed by MongoDB. The model lists statuses in declaration order, and the contracts do not depend on that order.
- AdminController.FindUser: the `$lookup` is modelled as finding the first user with the id, which assumes user ids are unique.
- The server-side sign-up handler and its role default are in `authController.js`, which is not part of this model.
- JSX rendering, animations, the @dnd-kit sensors and collision detection, the charts and date display formatting are presentation.
- The following client behaviour is left out:
  - TaskModal's effect that loads an edited task into the form, and its fetch of the user list;
  - the pages' open, edit, new and delete handlers;
  - the dashboard's fetch;
  - the Login, Today, Archive, Layout and TaskCard components.
- TaskModal.Modal.Change: `errors[name] = null` is modelled as removing the key. An error that is null is indistinguishable from a missing one on the page. SignupPage.Page.Change is modelled the same way.
- AdminUsers.Page.FetchData: both requests are modelled as one outcome. `Promise.all` fails when either request fails.
- Concurrency, async/await interleaving and last-write-wins between concurrent updates are not modelled.
