# Delivery dashboard — a verified model of its in-memory logic

The delivery dashboard is a React front end for a steel-fabrication shop. It
keeps a list of projects and the deliveries and pickups scheduled for them. It
tracks six completion criteria per project and derives a progress percentage
from them. It records missing materials per project and shows ordered
materials grouped by project. It keeps a scratch list of small jobs, and it
lays upcoming logistics out over the next working days or the next two weeks.

This project models that logic in Dafny, one module per component:

- `ProjectsManagement` is the projects page's state: the project and delivery
  lists, the project being edited, the delivery being edited, the selected
  project and the project awaiting deletion. It is a class whose methods are
  the page's handlers.
- `ProjectCriteria` covers the criteria panel: the six criteria, rounded
  progress, and toggling one criterion.
- `ProjectsSidebar` covers the sidebar: the 0/1 status list, the completed
  count, the progress bar and the project colour.
- `MissingMaterialsTable` is the missing-materials editor, as a class over the
  selected project and the row list.
- `SmallJobsSection` is the small-jobs card, as a class over the job list, the
  dialog flag and the draft.
- `LogisticsTimeline` covers the dashboard's working-day list (a loop with a
  safety bound), its per-day event lists and the sections it renders, both as
  written and with the corrected "Today" heading.
- `SampleData` covers the built-in projects and events and the weekend-skipping
  date helper.
- `DeliveryDays` holds the two-week window, the per-day buckets and the colour
  index. The carousel and the timeline each declare these helpers identically,
  so they are defined once here.
- `DeliveriesCarousel` and `DeliveriesTimeline` cover the two views of that
  window.
- `OrderedMaterialsTable` covers the grouping of ordered materials under
  their projects (a loop).
- `ProjectCarousel` covers the dashboard's scrolling strip of active projects.

Shared modules:

- `Options` holds Option and Result.
- `Seqs` holds filtering, first index and subsequences.
- `Js` holds JavaScript's truncating remainder, `trim`, decimal printing
  and `padStart`.
- `Calendar` holds day numbers and weekdays.
- `Palette` holds the six-colour palette.
- `Records` holds the project and delivery records.

Modelling choices:

- A date is an integer day number. Day 0 is 1 January 1970, a Thursday.
  "Same calendar day" is equality of day numbers.
- The clock, the current year and generated ids are parameters.
- Database reads arrive as `Option` values. `None` means the data is absent.
- JavaScript's `%` is `Js.Rem`, which truncates. An array read outside its
  bounds is `None`.

## Model

| member | source | states |
|---|---|---|
| Js.Rem | src/components/Projects/DeliveriesCarousel.tsx:116 | JavaScript `%` for a positive divisor: the result has the dividend's sign, magnitude `|a| mod b`, and lies strictly between `-b` and `b` |
| Js.Trim | src/components/Projects/SmallJobsSection.tsx:37 | `String.prototype.trim`: the result is an infix of the input with only white space before and after it, and it neither starts nor ends with white space |
| Js.PadStart | src/components/Projects/ProjectsManagement.tsx:50 | `padStart(width, fill)`: the result has length max(width, len), ends with the input and starts with fill characters only |
| Js.DecimalRoundTrip | src/components/Projects/ProjectsManagement.tsx:50 | `toString()` of a natural number is a digit string that reads back as the same number |
| Js.PaddedDecimalRoundTrip | src/components/Projects/ProjectsManagement.tsx:50 | zero-padding a decimal keeps it all digits, at least `width` long, with the same value |
| Calendar.WorkingDaysInProperties | src/components/Dashboard/LogisticsTimeline.tsx:14-17 | the working days of a window are exactly its Monday–Friday days, strictly increasing and inside the window |
| Calendar.TenWorkingDaysPerFortnight | src/components/Dashboard/LogisticsTimeline.tsx:13-21 | any fourteen consecutive days hold exactly ten working days |
| Calendar.WorkingDaysPrefix | src/components/Dashboard/LogisticsTimeline.tsx:13-21 | the working days of a shorter window are a prefix of those of any longer one from the same start |
| Calendar.NextWorkingDay | src/data/sampleData.ts:8-15 | the weekend shift gives the least working day on or after the date, at most two days later; from a weekend it gives Monday |
| Palette.ProjectColor | src/components/Projects/ProjectsSidebar.tsx:42-52 | `colors[index % colors.length]`: a non-negative index gets entry `index mod 6`; a negative index gets a colour only when it is a multiple of six |
| Palette.ProjectColorPeriodic | src/components/Projects/ProjectsSidebar.tsx:52 | indices six apart get the same colour |
| Palette.PaletteDistinct | src/components/Projects/ProjectsSidebar.tsx:43-50 | the six palette entries are pairwise different |
| Records.KeyOfRoundTrip | src/components/Projects/ProjectCriteria.tsx:16-23 | each criterion's property name maps back to that criterion |
| Records.Set | src/components/Projects/ProjectCriteria.tsx:28 | `{ ...project, [key]: value }` sets that criterion and leaves every other field as it was |
| Records.FromEvent | src/components/Projects/ProjectsManagement.tsx:21-25 | an initial delivery copies its event's fields and has empty additional-project lists |
| ProjectCriteria.CriteriaItemsCoverAllCriteria | src/components/Projects/ProjectCriteria.tsx:16-23 | the criteria panel lists each of the six criteria exactly once, keyed by its property name |
| ProjectCriteria.CompletedCount | src/components/Projects/ProjectCriteria.tsx:46-48 | the completed count is between 0 and 6 |
| ProjectCriteria.CompletedCountByCriterion | src/components/Projects/ProjectCriteria.tsx:46-48 | the count is the number of criteria whose field is exactly `true`; absent and false count as not done |
| ProjectCriteria.ProgressOf | src/components/Projects/ProjectCriteria.tsx:50 | `Math.round(k / 6 * 100)` in exact integers: the result lies in 0..100 and within one half of 100k/6 |
| ProjectCriteria.CalculateProgress | src/components/Projects/ProjectCriteria.tsx:44-51 | the progress of a record lies in 0..100 and is the integer nearest to 100/6 times its completed count, halves rounding up |
| ProjectCriteria.ProgressTable | src/components/Projects/ProjectCriteria.tsx:50 | the seven possible progress values are 0, 17, 33, 50, 67, 83 and 100 |
| ProjectCriteria.ProgressMonotonic | src/components/Projects/ProjectCriteria.tsx:46-50 | more completed criteria never give less progress |
| ProjectCriteria.ProgressExtremes | src/components/Projects/ProjectCriteria.tsx:50 | progress is 0 exactly when no criterion is done and 100 exactly when all six are |
| ProjectCriteria.HandleCriteriaChange | src/components/Projects/ProjectCriteria.tsx:25-34 | toggling sets that criterion to the new value, keeps every other criterion, id, name, description and status, and stores the progress of the toggled record |
| ProjectCriteria.ProgressIgnoresStoredProgress | src/components/Projects/ProjectCriteria.tsx:44-51 | the computed progress does not depend on the record's stored progress |
| ProjectCriteria.ChangeIgnoresStoredProgress | src/components/Projects/ProjectCriteria.tsx:30-33 | the stored progress before a toggle has no influence on the record the toggle produces |
| ProjectCriteria.ChangeIdempotent | src/components/Projects/ProjectCriteria.tsx:25-34 | applying the same toggle twice gives the same record as applying it once |
| ProjectsSidebar.KeysAgreeWithCriteriaPanel | src/components/Projects/ProjectsSidebar.tsx:29-36 | the sidebar's key list is the criteria panel's key list, in the same order |
| ProjectsSidebar.CalculateProjectStatus | src/components/Projects/ProjectsSidebar.tsx:28-39 | six entries, each 0 or 1, with 1 exactly when the corresponding field is `true` |
| ProjectsSidebar.CompletedCount | src/components/Projects/ProjectsSidebar.tsx:61 | `statusList.filter(Boolean).length` is at most the list length |
| ProjectsSidebar.CompletedCountMatchesCriteriaPanel | src/components/Projects/ProjectsSidebar.tsx:61 | the sidebar's completed count equals the criteria panel's count for the same project |
| ProjectsSidebar.ProgressPercent | src/components/Projects/ProjectsSidebar.tsx:62 | the bar's unrounded percentage lies in 0..100 |
| ProjectsSidebar.ProgressPercentProperties | src/components/Projects/ProjectsSidebar.tsx:62 | the progress bar is 0 exactly when nothing is done, 100 exactly when all is done, and within one half of the panel's rounded progress |
| ProjectsSidebar.GetProjectColor | src/components/Projects/ProjectsSidebar.tsx:42-52 | a sidebar position gets palette entry `index mod 6` |
| ProjectsManagement.NewProjectIdShape | src/components/Projects/ProjectsManagement.tsx:50 | a new id is `PRJ-<year>-` followed by at least three digits whose value is the project count plus one |
| ProjectsManagement.NewProjectIdInjective | src/components/Projects/ProjectsManagement.tsx:50 | different counts in the same year give different ids |
| ProjectsManagement.FirstIdOf2024 | src/components/Projects/ProjectsManagement.tsx:50 | the first project added in 2024 gets `PRJ-2024-001` |
| ProjectsManagement.ReplaceProject | src/components/Projects/ProjectsManagement.tsx:35-37 | the entries with the edited id become the new record and all others are unchanged; the length is kept |
| ProjectsManagement.ReplaceProjectProperties | src/components/Projects/ProjectsManagement.tsx:35-37 | ids are kept when the new record keeps the id; an unknown id changes nothing; a known id puts the new record in the list, and every listed record is an old one or the new one |
| ProjectsManagement.AddProject | src/components/Projects/ProjectsManagement.tsx:50-52 | adding keeps all earlier projects and appends the form data with the generated id and status "active", every other field as entered |
| ProjectsManagement.RemoveProject | src/components/Projects/ProjectsManagement.tsx:103 | no project with the deleted id survives |
| ProjectsManagement.RemoveProjectProperties | src/components/Projects/ProjectsManagement.tsx:103 | the survivors are exactly the projects with another id, in their original order, each as often as before; an unknown id changes nothing |
| ProjectsManagement.AddAfterDeleteRepeatsId | src/components/Projects/ProjectsManagement.tsx:50-52 | the generated id is not unique: after two adds and a delete of the first, the next add repeats the second project's id |
| ProjectsManagement.ReplaceDelivery | src/components/Projects/ProjectsManagement.tsx:64-66 | editing replaces only the first position of the edited delivery, keeps the length, and changes nothing when that delivery is absent |
| ProjectsManagement.FilterNames | src/components/Projects/ProjectsManagement.tsx:118-121 | filtering the names by position against the original id list never lengthens it |
| ProjectsManagement.FilterNamesKeepsAlignment | src/components/Projects/ProjectsManagement.tsx:113-123 | for aligned id and name lists, the filtered lists stay aligned: they pair up exactly as the filtered pairs |
| ProjectsManagement.StripProject | src/components/Projects/ProjectsManagement.tsx:113-123 | after stripping, the delivery's additional ids no longer contain the deleted id; its other fields are unchanged |
| ProjectsManagement.CascadeDeliveries | src/components/Projects/ProjectsManagement.tsx:112-123 | the cascaded list is the surviving deliveries, each stripped of the deleted id |
| ProjectsManagement.CascadeDeliveriesProperties | src/components/Projects/ProjectsManagement.tsx:112 | the survivors are exactly the deliveries for other projects, in order and each as often as before, and none has the deleted id as its project or among its additional ids |
| ProjectsManagement.CascadeKeepsNamesAligned | src/components/Projects/ProjectsManagement.tsx:113-123 | a delivery with aligned id and name lists still has aligned lists after the cascade |
| ProjectsManagement.SelectionAfterDelete | src/components/Projects/ProjectsManagement.tsx:107-109 | the selection is cleared exactly when it was the deleted project |
| ProjectsManagement.SelectionAfterEdit | src/components/Projects/ProjectsManagement.tsx:40-42 | the selection becomes the edited record exactly when it had the edited id |
| ProjectsManagement.ProjectsManagement.constructor | src/components/Projects/ProjectsManagement.tsx:20-30 | the page starts with the given projects, the events as deliveries, and nothing edited, selected or pending |
| ProjectsManagement.ProjectsManagement.SaveProject | src/components/Projects/ProjectsManagement.tsx:32-59 | with a project being edited, replace it and update a matching selection; otherwise append a new project; then clear the edit; nothing else changes |
| ProjectsManagement.ProjectsManagement.SaveDelivery | src/components/Projects/ProjectsManagement.tsx:61-94 | with a delivery being edited, replace it in place; otherwise append; then clear the edit; nothing else changes |
| ProjectsManagement.ProjectsManagement.DeleteProject | src/components/Projects/ProjectsManagement.tsx:96-98 | asking to delete only records the pending project |
| ProjectsManagement.ProjectsManagement.CancelDelete | src/components/Projects/ProjectsManagement.tsx:227 | dismissing the dialog clears the pending project and nothing else |
| ProjectsManagement.ProjectsManagement.ConfirmDeleteProject | src/components/Projects/ProjectsManagement.tsx:100-133 | with nothing pending nothing changes; otherwise the project, its deliveries and every reference to it go, the selection is cleared if it was that project, and the pending project is cleared |
| ProjectsManagement.ProjectsManagement.UpdateProject | src/components/Projects/ProjectsManagement.tsx:135-140 | the project with that id is replaced and becomes the selection |
| ProjectsManagement.ProjectsManagement.SelectProject | src/components/Projects/ProjectsManagement.tsx:191 | selecting changes only the selection |
| ProjectsManagement.ProjectsManagement.StartNewProject | src/components/Projects/ProjectsManagement.tsx:167 | the add button clears the project being edited |
| ProjectsManagement.ProjectsManagement.StartNewDelivery | src/components/Projects/ProjectsManagement.tsx:148-151 | the carousel's add button clears the delivery being edited |
| ProjectsManagement.ProjectsManagement.EditDelivery | src/components/Projects/ProjectsManagement.tsx:152-155 | clicking a delivery makes it the one being edited |
| MissingMaterialsTable.LoadRows | src/components/MissingMaterials/MissingMaterialsTable.tsx:106-119 | each fetched row becomes a row with the same id, project, name, grade, quantity and unit, in order; absent data gives no rows |
| MissingMaterialsTable.RemoveAt | src/components/MissingMaterials/MissingMaterialsTable.tsx:140-142 | exactly position `index` is dropped and the rest keep their order; an out-of-range index changes nothing |
| MissingMaterialsTable.ApplyChange | src/components/MissingMaterials/MissingMaterialsTable.tsx:146 | the named field takes the new value and every other field keeps its value |
| MissingMaterialsTable.ValidMaterials | src/components/MissingMaterials/MissingMaterialsTable.tsx:151-153 | every submitted row has a non-blank trimmed name and grade and a positive quantity |
| MissingMaterialsTable.ValidMaterialsProperties | src/components/MissingMaterials/MissingMaterialsTable.tsx:151-153 | the submitted rows are exactly the valid ones, in order, each as often as in the table |
| MissingMaterialsTable.BlankRowNotSubmitted | src/components/MissingMaterials/MissingMaterialsTable.tsx:131-137 | a freshly added row is invalid, so adding it does not change what is submitted |
| MissingMaterialsTable.SavePlan | src/components/MissingMaterials/MissingMaterialsTable.tsx:64-87 | saving without a selected project is an error; otherwise the project's rows are deleted and the valid rows inserted, all under the selected project |
| MissingMaterialsTable.TableMessageFor | src/components/MissingMaterials/MissingMaterialsTable.tsx:269-282 | the select-a-project prompt shows exactly when no project is selected, the empty-table line exactly when one is selected and there are no rows |
| MissingMaterialsTable.MissingMaterialsTable.constructor | src/components/MissingMaterials/MissingMaterialsTable.tsx:26-27 | the editor starts with no project and no rows |
| MissingMaterialsTable.MissingMaterialsTable.SelectProject | src/components/MissingMaterials/MissingMaterialsTable.tsx:183 | choosing a project changes only the selection |
| MissingMaterialsTable.MissingMaterialsTable.LoadExisting | src/components/MissingMaterials/MissingMaterialsTable.tsx:106-119 | the rows become the loaded rows |
| MissingMaterialsTable.MissingMaterialsTable.AddNewRow | src/components/MissingMaterials/MissingMaterialsTable.tsx:121-138 | with no project it warns and changes nothing; otherwise it appends one blank row for the selected project |
| MissingMaterialsTable.MissingMaterialsTable.RemoveRow | src/components/MissingMaterials/MissingMaterialsTable.tsx:140-142 | the rows lose position `index` |
| MissingMaterialsTable.MissingMaterialsTable.UpdateMaterial | src/components/MissingMaterials/MissingMaterialsTable.tsx:144-148 | one field of one row changes; the length and every other row stay the same |
| MissingMaterialsTable.MissingMaterialsTable.Save | src/components/MissingMaterials/MissingMaterialsTable.tsx:150-155 | the save request is the plan for the valid rows of the table |
| SmallJobsSection.StatusKeyRoundTrip | src/components/Projects/SmallJobsSection.tsx:185-187 | every status can be chosen in the selector and its value names it alone |
| SmallJobsSection.StatusColor | src/components/Projects/SmallJobsSection.tsx:78-85 | no status falls through to the grey default |
| SmallJobsSection.StatusColorInjective | src/components/Projects/SmallJobsSection.tsx:78-85 | different statuses get different badge colours |
| SmallJobsSection.NewJob | src/components/Projects/SmallJobsSection.tsx:46-52 | a new job has the given id, the title exactly as entered, status pending, and no order number exactly when the draft has none |
| SmallJobsSection.WithoutJob | src/components/Projects/SmallJobsSection.tsx:65 | no job with the deleted id remains |
| SmallJobsSection.WithoutJobProperties | src/components/Projects/SmallJobsSection.tsx:65 | deleting keeps exactly the jobs with other ids, in order and each as often as before, and an unknown id changes nothing |
| SmallJobsSection.WithStatus | src/components/Projects/SmallJobsSection.tsx:72-76 | jobs with the id take the new status; length, ids, titles, order numbers and times are unchanged |
| SmallJobsSection.WithStatusLastWins | src/components/Projects/SmallJobsSection.tsx:72-76 | any status may follow any other, and only the last change counts |
| SmallJobsSection.DeleteUndoesAdd | src/components/Projects/SmallJobsSection.tsx:54-65 | adding a job with a fresh id and deleting that id restores the list |
| SmallJobsSection.SmallJobsSection.constructor | src/components/Projects/SmallJobsSection.tsx:25-30 | the card starts with no jobs, the dialog closed and an empty draft |
| SmallJobsSection.SmallJobsSection.SetDialogOpen | src/components/Projects/SmallJobsSection.tsx:93 | opening or closing the dialog changes only the dialog flag |
| SmallJobsSection.SmallJobsSection.EditDraft | src/components/Projects/SmallJobsSection.tsx:108-117 | typing in the dialog changes only the draft |
| SmallJobsSection.SmallJobsSection.AddJob | src/components/Projects/SmallJobsSection.tsx:35-62 | a blank title is refused with no change; otherwise one pending job is appended, the draft is cleared and the dialog closes |
| SmallJobsSection.SmallJobsSection.DeleteJob | src/components/Projects/SmallJobsSection.tsx:64-70 | the job list loses the jobs with that id; nothing else changes |
| SmallJobsSection.SmallJobsSection.ChangeStatus | src/components/Projects/SmallJobsSection.tsx:72-76 | the job list takes the new status for that id; nothing else changes |
| LogisticsTimeline.WorkingDaysFrom | src/components/Dashboard/LogisticsTimeline.tsx:7-25 | the listed days are working days, strictly increasing, from today to at most fourteen days later, and never more than requested |
| LogisticsTimeline.WorkingDaysFromProperties | src/components/Dashboard/LogisticsTimeline.tsx:7-25 | exactly as many days as requested are listed whenever at most ten are requested |
| LogisticsTimeline.SixDaysShown | src/components/Dashboard/LogisticsTimeline.tsx:40 | the card always lists six working days |
| LogisticsTimeline.TodayFirstWhenWorking | src/components/Dashboard/LogisticsTimeline.tsx:13-18 | on a working day, today is the first day listed |
| LogisticsTimeline.GetWorkingDays | src/components/Dashboard/LogisticsTimeline.tsx:7-25 | the loop returns the first `days` working days among the fifteen calendar days from today, or all of them if there are fewer |
| LogisticsTimeline.DayEvents | src/components/Dashboard/LogisticsTimeline.tsx:55-57 | every event in a day's list is on that day |
| LogisticsTimeline.DayEventsProperties | src/components/Dashboard/LogisticsTimeline.tsx:55-57 | a day's list is exactly the events on that day, in input order, each as often as in the input |
| LogisticsTimeline.DayLabelAsWritten | src/components/Dashboard/LogisticsTimeline.tsx:61 | the heading as written: "Today" exactly at list position 0, otherwise the day's date |
| LogisticsTimeline.WeekendMondayHeadedToday | src/components/Dashboard/LogisticsTimeline.tsx:61 | on a Saturday the first listed day is the following Monday, and the code as written heads it "Today" |
| LogisticsTimeline.DayLabelFor | src/components/Dashboard/LogisticsTimeline.tsx:61 | corrected heading: "Today" exactly for today's date |
| LogisticsTimeline.DayLabelsAgreeOnWorkingDays | src/components/Dashboard/LogisticsTimeline.tsx:61 | when today is a working day, the corrected and the written headings agree on every listed day |
| LogisticsTimeline.SectionsAsWritten | src/components/Dashboard/LogisticsTimeline.tsx:53-80 | as written: each section is a listed day with a non-empty event list; only a section for the day at list position 0 is headed "Today", and it is whenever that day has events; every other section is headed by its date |
| LogisticsTimeline.Sections | src/components/Dashboard/LogisticsTimeline.tsx:53-80 | corrected rendering: each section is a listed day with a non-empty event list, headed "Today" exactly when it is today's date |
| LogisticsTimeline.SectionsDifferOnlyInHeadings | src/components/Dashboard/LogisticsTimeline.tsx:53-80 | the written and the corrected rendering list the same days with the same events in the same order |
| LogisticsTimeline.SectionsAgree | src/components/Dashboard/LogisticsTimeline.tsx:61 | when today's date is exactly the day at list position 0, the written rendering is the corrected one |
| LogisticsTimeline.SectionsAgreeOnWorkingDays | src/components/Dashboard/LogisticsTimeline.tsx:38-80 | when today is a working day, the card renders exactly the corrected sections |
| LogisticsTimeline.WeekendListsMondayFirst | src/components/Dashboard/LogisticsTimeline.tsx:13-20 | on a weekend the six listed days start with the following Monday |
| LogisticsTimeline.WeekendSectionHeadedToday | src/components/Dashboard/LogisticsTimeline.tsx:53-80 | on a weekend, when the following Monday has events, the card heads its section "Today" where the corrected heading is its date |
| LogisticsTimeline.SectionsInOrder | src/components/Dashboard/LogisticsTimeline.tsx:53 | the sections keep the order of the listed days |
| LogisticsTimeline.SectionsCoverBusyDays | src/components/Dashboard/LogisticsTimeline.tsx:53-80 | every listed day with events gets a section |
| SampleData.GetDateFromToday | src/data/sampleData.ts:6-17 | the date `days` ahead, moved to Monday from a weekend: a working day between zero and two days past the target |
| SampleData.LogisticsEvents | src/data/sampleData.ts:20-93 | the sample holds nine events |
| SampleData.ProjectsWellFormed | src/data/sampleData.ts:96-151 | the nine sample ids are pairwise distinct; every sample project is active with progress in 0..100 |
| SampleData.EventsReferToProjects | src/data/sampleData.ts:20-93 | every sample event names a sample project by id together with that project's name |
| SampleData.EventDates | src/data/sampleData.ts:20-93 | the first two events are today; the others fall on working days from tomorrow to a week ahead |
| SampleData.EventsInDateOrder | src/data/sampleData.ts:20-93 | the sample events are listed in date order |
| SampleData.NextWorkingDayMonotonic | src/data/sampleData.ts:8-15 | a later target never gives an earlier shifted date |
| DeliveryDays.Next14Days | src/components/Projects/DeliveriesCarousel.tsx:32-43 | fourteen days, the first today and each the day after the previous |
| DeliveryDays.DeliveriesByDate | src/components/Projects/DeliveriesCarousel.tsx:48-52 | every delivery in a bucket is on that day |
| DeliveryDays.DeliveriesByDateProperties | src/components/Projects/DeliveriesTimeline.tsx:39-43 | a day's bucket is exactly the deliveries on that day, in input order, each as often as in the input |
| DeliveryDays.DeliveryInExactlyOneBucket | src/components/Projects/DeliveriesTimeline.tsx:76-92 | a delivery in the window lies in its own day's bucket and in no other day's bucket |
| DeliveryDays.TodayHeadsFirstDayOnly | src/components/Projects/DeliveriesCarousel.tsx:63-66 | within the fourteen-day window `isToday` holds for the first day and no other |
| DeliveryDays.ColorIndex | src/components/Projects/DeliveriesCarousel.tsx:115-116 | the colour index lies in -1..5 and is -1 exactly when no listed project has the delivery's project number |
| DeliveryDays.DeliveryColor | src/components/Projects/DeliveriesCarousel.tsx:115-128 | a delivery gets no colour exactly when no listed project has its project number, and otherwise a palette colour |
| DeliveryDays.DeliveryColorByPosition | src/components/Projects/DeliveriesCarousel.tsx:115-128 | a delivery of the project first listed at position p gets palette entry `p mod 6` |
| DeliveryDays.DeliveryColorOfUnknownProject | src/components/Projects/DeliveriesTimeline.tsx:93-107 | a delivery of an unlisted project gets index -1 and hence no colour |
| DeliveriesCarousel.DaysWithDeliveries | src/components/Projects/DeliveriesCarousel.tsx:69-71 | every slide's day has a non-empty bucket |
| DeliveriesCarousel.DaysWithDeliveriesProperties | src/components/Projects/DeliveriesCarousel.tsx:69-71 | the slides are exactly the window's days with deliveries, in window order |
| DeliveriesCarousel.BusyDayIffDeliveryInWindow | src/components/Projects/DeliveriesCarousel.tsx:69-71 | some day of the window has deliveries exactly when some delivery is dated within the window |
| DeliveriesCarousel.EmptyMessageIffNoDeliveryInWindow | src/components/Projects/DeliveriesCarousel.tsx:89 | the no-deliveries message shows exactly when no delivery is dated within the two weeks |
| DeliveriesCarousel.OutOfWindowDeliveryNotShown | src/components/Projects/DeliveriesCarousel.tsx:98-99 | a delivery dated outside the window is on no slide |
| DeliveriesTimeline.RenderedDays | src/components/Projects/DeliveriesTimeline.tsx:76-79 | every rendered day is a window day with a non-empty bucket, and nothing renders exactly when every bucket is empty |
| DeliveriesTimeline.AllBucketsEmpty | src/components/Projects/DeliveriesTimeline.tsx:166 | the `every` check holds exactly when no day renders a section |
| DeliveriesTimeline.RenderedDaysAgreeWithCarousel | src/components/Projects/DeliveriesTimeline.tsx:76-79 | the timeline renders a section for exactly the days the carousel makes slides of |
| DeliveriesTimeline.RenderedDaysAreBusyDays | src/components/Projects/DeliveriesTimeline.tsx:76-79 | a day renders exactly when its bucket is non-empty, and the rendered days keep window order |
| DeliveriesTimeline.EmptyMessageIffNoDeliveryInWindow | src/components/Projects/DeliveriesTimeline.tsx:166 | the `every` check holds exactly when no delivery is in the window, which is exactly when no section renders |
| OrderedMaterialsTable.ProjectMaterials | src/components/OrderedMaterials/OrderedMaterialsTable.tsx:58 | every material of a project's list has that project id |
| OrderedMaterialsTable.Groups | src/components/OrderedMaterials/OrderedMaterialsTable.tsx:55-67 | every group is non-empty and holds exactly the materials of its id |
| OrderedMaterialsTable.GroupByProject | src/components/OrderedMaterials/OrderedMaterialsTable.tsx:55-69 | the loop over the fetched projects builds the grouping; absent data counts as empty |
| OrderedMaterialsTable.GroupsAreProjectsWithMaterials | src/components/OrderedMaterials/OrderedMaterialsTable.tsx:57-67 | the groups are, in project order, the groups of exactly the projects that have materials, each with the project's id, name and description |
| OrderedMaterialsTable.GroupsFollowProjects | src/components/OrderedMaterials/OrderedMaterialsTable.tsx:57-67 | each group belongs to a listed project; each listed project with materials has its group; the grouped projects keep list order |
| OrderedMaterialsTable.OrphanMaterialsHidden | src/components/OrderedMaterials/OrderedMaterialsTable.tsx:57-58 | a material of an unlisted project is in no group |
| OrderedMaterialsTable.TotalMaterialsBound | src/components/OrderedMaterials/OrderedMaterialsTable.tsx:57-58 | with distinct project ids, the groups show each material of a listed project once, so no more than were fetched |
| ProjectCarousel.ActiveProjects | src/components/Dashboard/ProjectCarousel.tsx:17 | every project on the strip is active |
| ProjectCarousel.ActiveProjectsProperties | src/components/Dashboard/ProjectCarousel.tsx:17 | the strip shows exactly the active projects, in list order, each as often as listed |
| ProjectCarousel.SampleProjectsAllShown | src/components/Dashboard/ProjectCarousel.tsx:17 | all nine sample projects are active and shown |
| ProjectCarousel.DisplayProjects | src/components/Dashboard/ProjectCarousel.tsx:21 | the doubled list has length 2n and position i shows project i mod n |
| ProjectCarousel.DisplayProjectsRepeats | src/components/Dashboard/ProjectCarousel.tsx:21 | the second copy repeats the first element by element |
| ProjectCarousel.AnimationDuration | src/components/Dashboard/ProjectCarousel.tsx:40 | the duration lies in 20..40 seconds: 40 up to ten projects, 60 − 2n between ten and twenty, 20 from twenty on |
| ProjectCarousel.AnimationDurationNonIncreasing | src/components/Dashboard/ProjectCarousel.tsx:40 | more projects never scroll slower |

## Left out

- Database access is not modelled: the Supabase queries, the delete-and-insert save, and the mark-as-missing update of the ordered-materials view. Fetched rows are inputs, and a save is described by the request it would send.
- Rendering is not modelled: JSX, CSS classes other than the palette and badge colours, toasts, dialogs, the hidden-button `click()`, and the carousel's DOM style changes.
- Locale date formatting is not modelled (`toLocaleDateString`, `toISOString`, `toDateString`). Only same-day comparison is kept.
- The clock, the current year and `Math.random` ids are parameters.
- Floating point is not modelled. `Math.round` on k/6 is exact integer arithmetic. The sidebar percentage is an exact real. Quantities are reals used only in `> 0`. `parseFloat` input parsing belongs to the form inputs.
- ProjectsManagement.StripProject: a delivery with additional names but no additional ids makes the original throw a `TypeError`. The model takes the absent id list as empty, so it returns an empty id list and keeps the additional names unchanged there.
- ProjectsManagement.ReplaceDelivery: the original finds the edited delivery by object identity (`indexOf`). The model uses value equality, so two equal deliveries cannot be told apart.
- ProjectsManagement.ProjectsManagement.SaveProject: this file never sets `editingProject` to a project, so in practice the edit branch is unreachable. It is modelled from the field anyway. A duplicate id after deletion is possible (AddAfterDeleteRepeatsId) and uniqueness is not claimed.
- MissingMaterialsTable.MissingMaterialsTable.UpdateMaterial: requires an index inside the table. The table only offers in-range rows; an out-of-range write, which would leave a hole in a JavaScript array, is not modelled.
- MissingMaterialsTable.SavePlan: the result of the preceding delete is not checked by the original and is not modelled. An insert error ends the save with a toast, which is not modelled either.
- Unit and status strings are enumerations or plain strings. The TypeScript casts (`as 'pieces' | 'meters'`) are not checked.
- Every sample event is a delivery or a pickup by construction of `EventType`. No lemma is needed for that.
- The form components (`ProjectForm`, `DeliveryForm`), the display-only components, the pages and the generated database types are not part of this model.

## Findings

| source | as written | input that shows it | evidently intended | confidence | as-written member | corrected member |
|---|---|---|---|---|---|---|
| src/components/Dashboard/LogisticsTimeline.tsx:61 | the first listed working day is headed "Today" | today a Saturday (day 2, 3 January 1970): the first listed day is Monday, day 4, headed "Today" | "Today" only for today's date | medium, not executed | LogisticsTimeline.WeekendMondayHeadedToday | LogisticsTimeline.DayLabelFor |
