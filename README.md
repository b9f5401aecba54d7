# Competency appraisal front end, modelled in Dafny

This is a model of the client-side logic of a competency appraisal web
application. In the application, heads of department evaluate employees
against the competencies their role requires. Administrators maintain
employees, roles, departments and the competency catalog, and assign
competencies to roles. Dashboards summarise the score gaps.

The model covers what the browser computes once a server call has
answered:

- **Employee lists.** Filtering of the employee lists, a selection with a
  select-all switch, and the bulk "mark as pending" update.
- **Score rows.** Enrichment of score rows from the catalog, with a gap of
  actual minus required. Edited scores are clamped into 0..3, and the
  evaluation payload and local status update follow from them.
- **Gap totals.** The gap totals kept in three buckets, and the two tabs
  of the statistics page with their department and competency selectors.
- **Role assignment editor.** The catalog split into available and
  assigned competencies, the selection toggle and the Assign/Remove
  button rules.
- **Lists after a save.** The in-memory list after each create, edit and
  delete on the four maintenance tables, and how each modal form is
  loaded and reset.
- **Analytics page.** The department filter of the analytics page's three
  employee lists and its counts.
- **Session.** The session kept in a user slot and in two browser-store
  keys (`userData` and `token`), and the role guard on protected routes.

Each source file is one module. The records the evaluation and status
screens share live in `EvaluationRecords`. `Common` holds the
JavaScript array and string operations the screens use (`filter`,
`find`, `every`, `includes`, `toLowerCase`, `||` on strings) and plain
objects with string keys, held as insertion-ordered lists of pairs.

A screen whose handlers update component state is a class. Its fields are
that state, and its handlers are methods whose postconditions give the
whole new state in terms of the pure functions. Each pure function comes
with lemmas saying what its result means: a subsequence of the input,
each element's multiplicity, membership in both directions, and identity
when a filter is inactive.

Some things are modelled exactly as the code behaves:

- **Truthiness.** An editing id of 0, an empty editing employee number and
  an empty editing department code all take the create path, because the
  code tests them for truthiness.
- **Department edit.** It merges the form into the departments whose code
  equals the code now in the form, not the code the modal was opened
  with. `DepartmentCrud.EditWithChangedCode` states what this means when
  the user changed the code.
- **Description fallback.** The evaluation screen falls back to
  "No description available" for an empty catalog description. The
  status screen does so only for a competency missing from the catalog.

## Model

| member | source | states |
|---|---|---|
| Common.FindFirst | src/Employee/EmployeeEvalHod.tsx:143 | `find` returns nothing exactly when no element satisfies the test, and otherwise the first element that does |
| Common.Toggle | src/Employee/EmployeeStatus.tsx:143-148 | toggling flips the membership of the value and no other's; an absent value is appended at the end |
| Common.ToggleRemovesAll | src/RoleAssign/RoleCompetency.tsx:92-97 | toggling a present value removes every occurrence, keeps the others in order and keeps their multiplicities |
| Common.ToggleNoDuplicates | src/Employee/EmployeeStatus.tsx:143-148 | a selection without duplicates stays without duplicates after a toggle |
| Common.ToggleTwice | src/RoleAssign/RoleCompetency.tsx:92-97 | toggling the same value twice, starting from a selection without it, gives back the selection |
| Common.Lower | src/Employee/EmployeeEvalHod.tsx:104-107 | lower-casing keeps the length and lower-cases each character |
| Common.LowerIdempotent | src/Employee/EmployeeEvalHod.tsx:104-107 | lower-casing twice is lower-casing once |
| Common.IncludesMeansOccurs | src/Employee/EmployeeStatus.tsx:114-115 | `includes` holds exactly when the term occurs at some position |
| Common.OrElse | src/Employee/EmployeeEvalHod.tsx:171-173 | `a || b` on strings is `a`, or `b` exactly when `a` is empty |
| Common.Get | src/Employee/EmployeeEvalHod.tsx:161-164 | a key of a plain object has a value exactly when it is among the keys |
| Common.GetFindsFirst | src/Employee/EmployeeEvalHod.tsx:161-164 | the value found under a key is the one paired with the key's first occurrence |
| Common.Put | src/Employee/EmployeeEvalHod.tsx:162 | after a property assignment the key holds the new value and every other key keeps its value |
| Common.PutKeys | src/Employee/EmployeeEvalHod.tsx:162 | a property assignment keeps the order of the keys, and a new key goes last |
| Common.PutDistinctKeys | src/Employee/EmployeeEvalHod.tsx:162 | an object's keys stay distinct after a property assignment |
| EvaluationRecords.SearchIgnoresCase | src/Employee/EmployeeEvalHod.tsx:103-108 | the search gives the same answer for a term and its lower-cased form |
| EvaluationRecords.MatchesSearchMeaning | src/Employee/EmployeeStatus.tsx:112-116 | an employee matches the search exactly when the lower-cased term occurs in the lower-cased number or name |
| EvaluationRecords.Display | src/Employee/EmployeeEvalHod.tsx:152-157 | an enriched row keeps the score fields, takes the given name and description, and its gap is actual minus required |
| EvaluationRecords.Summary | src/Employee/EmployeeEvalHod.tsx:168-174 | the popup header keeps the number and department; an employee not in the list shows "Unknown" and "Unknown position" |
| EvaluationRecords.SummaryFirstMatch | src/Employee/EmployeeStatus.tsx:216-240 | the first listed employee with the number supplies the name and job code, each replaced by its fallback when empty |
| EmployeeEvalHod.ApplyFiltersIsOneFilter | src/Employee/EmployeeEvalHod.tsx:100-116 | the chained search and status filters keep exactly the employees that pass both active tests |
| EmployeeEvalHod.ApplyFiltersMeaning | src/Employee/EmployeeEvalHod.tsx:100-116 | the filtered list is an order-preserving subsequence that keeps each passing employee's multiplicity; with an empty term and "all" it is the whole list |
| EmployeeEvalHod.EnrichAllMeaning | src/Employee/EmployeeEvalHod.tsx:146-158 | rows keep the scores' length, order and fields with gap actual minus required; a code missing from the catalog shows the code and the fallback description; a catalog hit shows its name, and the fallback description exactly when its description is absent, empty or the fallback text |
| EmployeeEvalHod.InitialScoresKeys | src/Employee/EmployeeEvalHod.tsx:161-164 | the edited scores have a key exactly for the codes of the rows |
| EmployeeEvalHod.InitialScoresLastWins | src/Employee/EmployeeEvalHod.tsx:161-164 | each code starts at the actual score of the last row with that code |
| EmployeeEvalHod.InitialScoresDistinct | src/Employee/EmployeeEvalHod.tsx:161-164 | the edited scores hold each code once |
| EmployeeEvalHod.ClampScore | src/Employee/EmployeeEvalHod.tsx:197 | the clamped score lies in 0..3, equals the input inside that range and the nearer bound outside it |
| EmployeeEvalHod.ChangeScoreMeaning | src/Employee/EmployeeEvalHod.tsx:193-203 | input that is not a number changes nothing; a number sets the code's score to its clamped value, within 0..3, leaves every other code alone and keeps the keys distinct |
| EmployeeEvalHod.PayloadScoresMeaning | src/Employee/EmployeeEvalHod.tsx:217-224 | the payload has one entry per edited score, in order, carrying that code's value |
| EmployeeEvalHod.GetAtIndex | src/Employee/EmployeeEvalHod.tsx:220-223 | distinct keys: the value found under an entry's key is that entry's value |
| EmployeeEvalHod.MarkEvaluatedMeaning | src/Employee/EmployeeEvalHod.tsx:229-240 | only employees with the evaluated number change, becoming evaluated by the evaluator at the date with every other field kept; the length is kept |
| EmployeeEvalHod.EvaluationScreen.constructor | src/Employee/EmployeeEvalHod.tsx:51-60 | the screen starts with empty lists, an empty search, the "all" filter, no popup and no edited scores |
| EmployeeEvalHod.EvaluationScreen.LoadData | src/Employee/EmployeeEvalHod.tsx:63-94 | without a user nothing changes; otherwise the catalog and the employees are the fetched ones and nothing else changes |
| EmployeeEvalHod.EvaluationScreen.HandleSearch | src/Employee/EmployeeEvalHod.tsx:119-121 | the search term becomes the input |
| EmployeeEvalHod.EvaluationScreen.HandleStatusFilter | src/Employee/EmployeeEvalHod.tsx:123-125 | the status filter becomes the selected value |
| EmployeeEvalHod.EvaluationScreen.FetchEmployeeCompetencies | src/Employee/EmployeeEvalHod.tsx:127-191 | the popup shows the enriched rows and the employee summary, the edited scores start from the rows' actual scores, and the popup opens out of edit mode |
| EmployeeEvalHod.EvaluationScreen.StartEditing | src/Employee/EmployeeEvalHod.tsx:327 | the popup enters edit mode |
| EmployeeEvalHod.EvaluationScreen.CancelEditing | src/Employee/EmployeeEvalHod.tsx:341 | the popup leaves edit mode |
| EmployeeEvalHod.EvaluationScreen.ClosePopup | src/Employee/EmployeeEvalHod.tsx:266 | the popup closes |
| EmployeeEvalHod.EvaluationScreen.HandleScoreChange | src/Employee/EmployeeEvalHod.tsx:193-203 | the edited scores become the score change of the old ones, keeping their keys distinct |
| EmployeeEvalHod.EvaluationScreen.SubmitEvaluation | src/Employee/EmployeeEvalHod.tsx:205-243 | without popup data or a user nothing happens; otherwise the payload holds the employee, the evaluator and the edited scores, the employee is marked evaluated and the popup closes |
| EmployeeStatus.ApplyFiltersIsOneFilter | src/Employee/EmployeeStatus.tsx:108-128 | the chained search, department and status filters keep exactly the employees that pass all three active tests |
| EmployeeStatus.ApplyFiltersMeaning | src/Employee/EmployeeStatus.tsx:108-128 | the filtered list is an order-preserving subsequence keeping the multiplicity of each employee passing all three tests and dropping every other; with all three inactive it is the whole list |
| EmployeeStatus.NumbersCoverList | src/Employee/EmployeeStatus.tsx:155 | select-all takes one number per listed employee, and a number is taken exactly when some listed employee has it |
| EmployeeStatus.MarkPendingMeaning | src/Employee/EmployeeStatus.tsx:176-187 | exactly the selected employees become not evaluated with no evaluator or date, keeping every other field; the others and the length are kept |
| EmployeeStatus.MarkPendingIdempotent | src/Employee/EmployeeStatus.tsx:176-187 | marking the same selection pending twice is marking it once |
| EmployeeStatus.EnrichAllMeaning | src/Employee/EmployeeStatus.tsx:219-232 | rows keep the scores' length, order and fields with gap actual minus required; a missing code shows the code and the fallback description; a catalog hit shows its own name and description |
| EmployeeStatus.DepartmentName | src/Employee/EmployeeStatus.tsx:216-238 | an employee not in the list gives "Unknown department"; any other result is the name of a listed department |
| EmployeeStatus.DepartmentNameMeaning | src/Employee/EmployeeStatus.tsx:216-238 | for the first listed employee with the number, the name of the first department with the employee's code is shown, or "Unknown department" when that name is empty or no department has the code |
| EmployeeStatus.StatusScreen.constructor | src/Employee/EmployeeStatus.tsx:57-67 | the screen starts with empty lists, an empty search, both filters on "all", no selection and no popup |
| EmployeeStatus.StatusScreen.LoadData | src/Employee/EmployeeStatus.tsx:71-102 | employees, departments and competencies become the fetched lists |
| EmployeeStatus.StatusScreen.HandleSearch | src/Employee/EmployeeStatus.tsx:131-133 | the search term becomes the input |
| EmployeeStatus.StatusScreen.HandleDepartmentFilter | src/Employee/EmployeeStatus.tsx:135-137 | the department filter becomes the selected value |
| EmployeeStatus.StatusScreen.HandleStatusFilter | src/Employee/EmployeeStatus.tsx:139-141 | the status filter becomes the selected value |
| EmployeeStatus.StatusScreen.ToggleSelectEmployee | src/Employee/EmployeeStatus.tsx:143-148 | the number's membership flips, every other number's is kept, and a new number goes at the end |
| EmployeeStatus.StatusScreen.ToggleSelectAll | src/Employee/EmployeeStatus.tsx:151-158 | select-all flips; switching it off empties the selection, switching it on selects the listed employees' numbers in order |
| EmployeeStatus.StatusScreen.MarkAsPending | src/Employee/EmployeeStatus.tsx:160-190 | an empty selection changes nothing; otherwise the selected employees go pending, the selection empties and select-all goes off |
| EmployeeStatus.StatusScreen.FetchEmployeeCompetencies | src/Employee/EmployeeStatus.tsx:202-244 | the popup shows the enriched rows and the summary with the employee's department name, and opens |
| EmployeeStatus.StatusScreen.ClosePopup | src/Employee/EmployeeStatus.tsx:268 | the popup closes |
| Statistics.SumGapsAppend | src/stats/stats.tsx:45-49 | the gap total of two lists one after the other is the sum of their totals |
| Statistics.SumGapsComponents | src/stats/stats.tsx:45-49 | each bucket of the total is the plain sum of that bucket over the list |
| Statistics.DepartmentTotalsAdd | src/stats/stats.tsx:41-52 | the department total is additive over concatenation |
| Statistics.CompetencyTotalsAdd | src/stats/stats.tsx:55-66 | the competency total is additive over concatenation |
| Statistics.CalculateTotalDepartmentGaps | src/stats/stats.tsx:41-52 | absent input gives zero in all three buckets; otherwise the loop's total is the bucket-wise sum over all departments |
| Statistics.CalculateTotalCompetencyGaps | src/stats/stats.tsx:55-66 | absent input gives zero in all three buckets; otherwise the loop's total is the bucket-wise sum over all competencies |
| Statistics.DepartmentsToShowMeaning | src/stats/stats.tsx:214-216 | "all" shows every department; otherwise an order-preserving subsequence with exactly the departments of the selected code, each with its multiplicity |
| Statistics.CompetenciesToShowMeaning | src/stats/stats.tsx:218-220 | "all" shows every competency; otherwise an order-preserving subsequence with exactly the competencies of the selected code, each with its multiplicity |
| Statistics.Dashboard | src/stats/stats.tsx:212-373 | no data gives no dashboard; otherwise the summary counts are the data's whatever tab is active; exactly the active tab's section is shown, the departments tab being the first one; its cards follow its selector and its overall chart, totalled over the unfiltered list, appears exactly when that selector is "all" |
| RoleCompetency.AvailableAssignedPartition | src/RoleAssign/RoleCompetency.tsx:202-203 | available and assigned lists are order-preserving subsequences of the catalog, hold exactly the entries whose code is unassigned, respectively assigned, and together partition it |
| RoleCompetency.AssignEnabledMeaning | src/RoleAssign/RoleCompetency.tsx:246-247 | "Assign Selected" is enabled exactly when some selected code is not yet assigned |
| RoleCompetency.RemoveEnabledMeaning | src/RoleAssign/RoleCompetency.tsx:254-255 | "Remove Selected" is enabled exactly when some selected code is assigned |
| RoleCompetency.SomeButtonEnabled | src/RoleAssign/RoleCompetency.tsx:246-255 | with a non-empty selection at least one of the two buttons is enabled |
| RoleCompetency.AssignmentScreen.constructor | src/RoleAssign/RoleCompetency.tsx:20-25 | the screen starts with no roles, no competencies, no current role, empty lists and the modal closed |
| RoleCompetency.AssignmentScreen.LoadData | src/RoleAssign/RoleCompetency.tsx:29-59 | roles and catalog become the fetched lists |
| RoleCompetency.AssignmentScreen.OpenAssignmentModal | src/RoleAssign/RoleCompetency.tsx:81-85 | the role becomes current, its assigned codes are the fetched ones, and the modal shows |
| RoleCompetency.AssignmentScreen.CloseModal | src/RoleAssign/RoleCompetency.tsx:87-90 | the modal closes and the selection empties |
| RoleCompetency.AssignmentScreen.ToggleCompetency | src/RoleAssign/RoleCompetency.tsx:92-98 | the code's membership flips, every other code's is kept, and a new code goes at the end |
| RoleCompetency.AssignmentScreen.HandleAssign | src/RoleAssign/RoleCompetency.tsx:100-128 | without a current role or a selection no request is sent and nothing changes; otherwise the request assigns the selection to the role, the assigned codes are refetched and the selection empties |
| RoleCompetency.AssignmentScreen.HandleRemove | src/RoleAssign/RoleCompetency.tsx:130-157 | without a current role or a selection no request is sent and nothing changes; otherwise the request removes the selection from the role, the assigned codes are refetched and the selection empties |
| EmployeeCrud.EditEmployeesMeaning | src/Employee/EmployeeCrud.tsx:91-93 | exactly the entries with the edited number become the form, others are kept and the length is kept |
| EmployeeCrud.DeleteEmployeeMeaning | src/Employee/EmployeeCrud.tsx:119 | no entry with the number is left; the others keep their order and multiplicities |
| EmployeeCrud.DeleteUndoesSave | src/Employee/EmployeeCrud.tsx:89-119 | deleting a number after an edit under it or a create with it gives what deleting it alone gives |
| EmployeeCrud.EmployeeScreen.constructor | src/Employee/EmployeeCrud.tsx:26-36 | the screen starts with empty lists, a blank form, no editing number and the modal closed |
| EmployeeCrud.EmployeeScreen.LoadData | src/Employee/EmployeeCrud.tsx:39-69 | employees, roles and departments become the fetched lists |
| EmployeeCrud.EmployeeScreen.HandleSubmit | src/Employee/EmployeeCrud.tsx:71-108 | a non-empty editing number rewrites its entries with the form; otherwise the server's record is appended; the modal closes |
| EmployeeCrud.EmployeeScreen.HandleDelete | src/Employee/EmployeeCrud.tsx:110-130 | a confirmed delete removes the number's entries; a declined one changes nothing |
| EmployeeCrud.EmployeeScreen.OpenModal | src/Employee/EmployeeCrud.tsx:132-151 | a row loads all six fields and its number as editing key; no row gives the blank form and no key; the modal opens |
| EmployeeCrud.EmployeeScreen.CloseModal | src/Employee/EmployeeCrud.tsx:153-155 | the modal closes |
| CompetencyCrud.Merge | src/Competency/CompetencyCrud.tsx:57-59 | a merged entry keeps its id and takes the form's code, name and description |
| CompetencyCrud.EditCompetenciesMeaning | src/Competency/CompetencyCrud.tsx:57-59 | exactly the entries with the edited id take the form's fields, keeping the id; the others and the length are kept |
| CompetencyCrud.DeleteCompetencyMeaning | src/Competency/CompetencyCrud.tsx:85 | no entry with the id is left; the others keep their order and multiplicities |
| CompetencyCrud.DeleteUndoesSave | src/Competency/CompetencyCrud.tsx:55-85 | deleting an id after an edit of it or a create with it gives what deleting it alone gives |
| CompetencyCrud.CompetencyScreen.constructor | src/Competency/CompetencyCrud.tsx:15-20 | the screen starts with an empty list, a blank form, no editing id and the modal closed |
| CompetencyCrud.CompetencyScreen.LoadData | src/Competency/CompetencyCrud.tsx:23-44 | the list becomes the fetched one |
| CompetencyCrud.CompetencyScreen.HandleSubmit | src/Competency/CompetencyCrud.tsx:46-74 | a non-zero editing id merges the form into its entries; a null or zero id appends the server's record; the modal closes |
| CompetencyCrud.CompetencyScreen.HandleDelete | src/Competency/CompetencyCrud.tsx:76-96 | a confirmed delete removes the id's entries; a declined one changes nothing |
| CompetencyCrud.CompetencyScreen.OpenModal | src/Competency/CompetencyCrud.tsx:98-111 | a row loads its fields, an absent description as "", and its id; no row clears the form and the id; the modal opens |
| CompetencyCrud.CompetencyScreen.CloseModal | src/Competency/CompetencyCrud.tsx:113-115 | the modal closes |
| RoleCrud.TrimStart | src/Role/RoleCrud.tsx:46 | trimming the start leaves a suffix that does not start with white space, and everything cut off is white space |
| RoleCrud.TrimEnd | src/Role/RoleCrud.tsx:46 | trimming the end leaves a prefix that does not end with white space, and everything cut off is white space |
| RoleCrud.BlankMeansAllWhitespace | src/Role/RoleCrud.tsx:46 | a value fails the check exactly when every character is white space |
| RoleCrud.TrimIdempotent | src/Role/RoleCrud.tsx:46 | trimming twice is trimming once |
| RoleCrud.EditRolesMeaning | src/Role/RoleCrud.tsx:59-62 | exactly the roles with the edited id take the form's code and name, keeping the id; the others and the length are kept |
| RoleCrud.DeleteRoleMeaning | src/Role/RoleCrud.tsx:87 | no role with the id is left; the others keep their order and multiplicities |
| RoleCrud.DeleteUndoesSave | src/Role/RoleCrud.tsx:58-87 | deleting an id after an edit of it or a create with it gives what deleting it alone gives |
| RoleCrud.RoleScreen.constructor | src/Role/RoleCrud.tsx:13-19 | the screen starts with no roles, a blank form, no editing id and the modal closed |
| RoleCrud.RoleScreen.LoadData | src/Role/RoleCrud.tsx:22-43 | the list becomes the fetched one |
| RoleCrud.RoleScreen.HandleSubmit | src/Role/RoleCrud.tsx:45-77 | a blank code or name raises the alert and changes nothing; otherwise a non-zero editing id merges the form into its roles, a null or zero id appends the server's role, and the modal closes |
| RoleCrud.RoleScreen.HandleDelete | src/Role/RoleCrud.tsx:79-98 | a confirmed delete removes the id's roles; a declined one changes nothing |
| RoleCrud.RoleScreen.OpenModal | src/Role/RoleCrud.tsx:100-112 | a row loads its code and name and its id; no row resets the form and the id; the modal opens |
| RoleCrud.RoleScreen.CloseModal | src/Role/RoleCrud.tsx:114-116 | the modal closes |
| RoleCrud.RoleScreen.HandleInputChange | src/Role/RoleCrud.tsx:118-124 | the named field takes the value and the other field is kept |
| DepartmentCrud.EditDepartmentsMeaning | src/Department/DepartmentCrud.tsx:47-51 | exactly the departments whose code is the form's code take the form's name; the others and the length are kept |
| DepartmentCrud.EditWithChangedCode | src/Department/DepartmentCrud.tsx:43-51 | with the code changed in the form, the edited department keeps its old code and name, and a department already having the new code takes the new name |
| DepartmentCrud.DeleteDepartmentMeaning | src/Department/DepartmentCrud.tsx:71 | no department with the code is left; the others keep their order and multiplicities |
| DepartmentCrud.DeleteUndoesSave | src/Department/DepartmentCrud.tsx:47-71 | deleting the form's code after an edit, or a created code after a create, gives what deleting it alone gives |
| DepartmentCrud.DepartmentScreen.constructor | src/Department/DepartmentCrud.tsx:11-15 | the screen starts with no departments, a blank form, no editing code and the modal closed |
| DepartmentCrud.DepartmentScreen.LoadData | src/Department/DepartmentCrud.tsx:17-22 | the list becomes the fetched one |
| DepartmentCrud.DepartmentScreen.OpenModal | src/Department/DepartmentCrud.tsx:24-29 | the editing code is the given code, or none when it is absent or empty; both fields are pre-filled, defaulting to ""; the modal opens |
| DepartmentCrud.DepartmentScreen.CloseModal | src/Department/DepartmentCrud.tsx:31-36 | the modal closes and both fields and the editing code are cleared |
| DepartmentCrud.DepartmentScreen.HandleCodeChange | src/Department/DepartmentCrud.tsx:129 | the code field takes the typed value |
| DepartmentCrud.DepartmentScreen.HandleNameChange | src/Department/DepartmentCrud.tsx:136 | the name field takes the typed value |
| DepartmentCrud.DepartmentScreen.HandleSubmit | src/Department/DepartmentCrud.tsx:37-64 | a non-empty editing code merges the form into the departments with the form's code; otherwise the server's department is appended; then the modal closes and the form clears |
| DepartmentCrud.DepartmentScreen.HandleDelete | src/Department/DepartmentCrud.tsx:66-75 | a confirmed delete removes the code's departments; a declined one changes nothing |
| AnalyticsDashboard.ListCount | src/stats.tsx:190 | the count shown is the list's length, or 0 when there is no list |
| AnalyticsDashboard.FilteredMeaning | src/stats.tsx:81-91 | there is a filtered list exactly when there is data; "all" gives the whole list; otherwise an order-preserving subsequence with exactly the employees of the selected department, each with its multiplicity |
| AnalyticsDashboard.Render | src/stats.tsx:93-119 | loading shows the loading message; no data after loading shows the error; the dashboard's summary is that of the data |
| AnalyticsDashboard.PanelMeaning | src/stats.tsx:190-192 | each panel's count is the length of its rows, its table shows exactly when there are rows, and the count is at most the unfiltered length, equal to it for "all" |
| AnalyticsDashboard.SummaryIgnoresSelection | src/stats.tsx:103-119 | the summary cards do not depend on the selector; the low-performer and high-potential counts are at most the card values, equal to them for "all" |
| AuthContext.LoginStore | src/auth/AuthContext.tsx:25-29 | login writes the user record under `userData` and its token under `token`, adds only those keys and touches no other |
| AuthContext.LogoutStore | src/auth/AuthContext.tsx:32-36 | logout removes both keys and touches no other |
| AuthContext.LoadStore | src/auth/AuthContext.tsx:15-22 | without a stored user the store is unchanged; with one its token is written under `token`, only that key may be added, the stored user stays, and no other key changes |
| AuthContext.LoginThenReload | src/auth/AuthContext.tsx:15-29 | after login the stored user is the logged-in one and loading changes nothing more |
| AuthContext.LogoutForgetsUser | src/auth/AuthContext.tsx:32-36 | after logout no user is found in the store |
| AuthContext.LogoutIdempotent | src/auth/AuthContext.tsx:32-36 | logging out twice is logging out once |
| AuthContext.LoginThenLogout | src/auth/AuthContext.tsx:25-36 | logging in then out leaves the store as logging out alone would |
| AuthContext.AuthProvider.constructor | src/auth/AuthContext.tsx:12 | the provider starts with nobody signed in |
| AuthContext.AuthProvider.LoadFromStore | src/auth/AuthContext.tsx:15-22 | a stored user becomes the signed-in user and its token is rewritten; without one the user slot and the store are unchanged; no other key changes |
| AuthContext.AuthProvider.Login | src/auth/AuthContext.tsx:25-29 | the user slot holds the user and the store is the login store |
| AuthContext.AuthProvider.Logout | src/auth/AuthContext.tsx:32-36 | the user slot is empty and the store is the logout store |
| AuthContext.ReloadAfterLogin | src/auth/AuthContext.tsx:15-29 | a fresh provider over the store a login left signs the same user back in |
| ProtectedRoute.Guard | src/auth/ProtectedRoute.tsx:13-21 | no user redirects to "/login", a role not allowed redirects to "/", an allowed role gets the outlet, each exactly in its case |
| ProtectedRoute.GuardAllowedRoles | src/auth/ProtectedRoute.tsx:17-21 | widening the allowed roles never turns an admitted user away nor redirects a user to "/" who was not, and role lists with the same members give the same outcome |
| ProtectedRoute.GuardAfterSession | src/auth/ProtectedRoute.tsx:13-21 | after logout every guarded route redirects to login; after login a restored user is judged by that user's role |

## Left out

- Server calls are not modelled: every GET, POST, PUT, PATCH and DELETE, `Promise.all`, the handling of 401 responses and the page redirects. Each handler is modelled as if its call succeeded. Data the server returns (a created record, the refetched assigned codes, the fetched lists) is a parameter.
- `alert` is not modelled; the role form's alert is the returned `alerted` flag. `window.confirm` is the `confirmed` parameter of the delete handlers.
- Loading and error flags are not modelled, except on the analytics page, where they decide what is shown. Neither are `loadingCompetencies`, the fetch error paths and console logging.
- Floating-point arithmetic is left out: the bar heights and evaluated percentages of src/stats/stats.tsx:98-103, 242 and 249, and the pie-chart percentages of src/stats.tsx:174.
- `new Date().toISOString()` is the `now` parameter of `SubmitEvaluation`.
- `parseInt` and `isNaN` are folded into an `Option<int>` parameter of `HandleScoreChange`, with None for text that is not a number.
- Common.Lower: lower-cases ASCII letters only. Full Unicode case mapping is not modelled.
- JSON serialisation is not modelled. The browser store maps keys to either a user record or plain text. Plain text under `userData` is read as no user, where the code would try to parse it.
- A plain object with integer-like keys enumerates them first in JavaScript. The edited scores are kept in insertion order instead.
- Rendering, styling, charts and the options of the selectors are not modelled. The model keeps only the facts the screens display: counts, whether a table or chart is shown, the disabled and read-only inputs, and the popup and modal flags.
- The statistics page's tab buttons and selectors are inline setters. The active tab and both selections are parameters of `Statistics.Dashboard`.
- The employee form's per-field input handlers are not modelled; they are inline setters, and `OpenModal` sets all the fields together.
- The role form's input handler stores whatever field name the input carries. The two inputs it is wired to are the `Field` datatype, and other names are not modelled.
- Login and registration forms, the role-assignment form in src/Role/RoleAssign.tsx, the HTTP client set-up, the error type test, the competency and personal-score pages, the navigation bar, the landing page and the route table are not part of this model. They consist of form binding, single requests and rendering only.
