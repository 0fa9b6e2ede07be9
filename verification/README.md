# CMMS dashboard core in Dafny

This project models the state logic of a maintenance-management dashboard, a React
front end with no backend. Every screen keeps its records in memory and rewrites
them with whole-list `filter`/`map` replacements. The model covers:

- the work-order list with its create, edit, delete, assign and complete handlers, the
  follow-up order that completion can append, and the three dialogs that feed those
  handlers (work-order form, assignment dialog, completion dialog);
- the asset register: search and filters, create/edit/delete, scheduling maintenance,
  the health-score bands, the type drop-down, the asset form, and the asset history
  (cost totals, per-kind totals, maximum, health history, chart series);
- the inventory list: search and filters, create/edit/delete, the stock colour, the
  category drop-down, the inventory form with its quantity parsing, and the stock
  badge, bar and trend of the details dialog;
- the notification centre: the generated feed (ids, newest-first order, age labels),
  the unread badge, the tab × category filter, mark-read, mark-all-read and delete;
- the maintenance schedule: thirty generated tasks, the status × type filter, the
  selected-day view and the marked days; and the dashboard calendar, with the same
  day view and its month navigation;
- the profile page: the save validation (blank name, the e-mail pattern
  `^[^\s@]+@[^\s@]+\.[^\s@]+$` as an automaton), the update of the stored user
  record, the skills text field and the avatar initials;
- the time picker: its option lists, its initial selection and the `HH:MM` it emits;
  and the date-time picker that reads that text back onto a date.

Records are immutable datatypes with enumerated statuses. Every handler is a pure
function from the old list (and the handler's arguments) to the new list. The
present date, "a week from now", the clock of the generated feeds and every
`Math.random` outcome are parameters.

Files follow the source:

| file | models |
|---|---|
| `common.dfy` | `Option`, form outcomes, `filter`, `find`, `reverse` and their laws |
| `text.dfy` | ASCII whitespace and lower case, `trim`, `includes`, `split`/`join`, `padStart`, decimal printing and `parseInt` |
| `ordering.dfy` | the default string order of `sort()` and `[...new Set(xs)].sort()` |
| `dates.dfy` | calendar days, `setDate(getDate() + n)`, `setMonth(getMonth() ± 1)`, same-day selection |
| `work_orders.dfy`, `work_order_form.dfy`, `assign_modal.dfy`, `complete_modal.dfy` | the work-order screens |
| `assets.dfy`, `asset_form.dfy`, `asset_history.dfy` | the asset screens |
| `inventory.dfy`, `inventory_form.dfy`, `inventory_details.dfy` | the inventory screens |
| `notifications.dfy` | the notification centre |
| `maintenance_schedule.dfy`, `maintenance_calendar.dfy` | the schedule page and the dashboard calendar |
| `profile.dfy` | the profile page |
| `time_picker.dfy` | the time picker and the date-time picker |

## Model

| member | source | states |
|---|---|---|
| WorkOrders.FilterWorkOrders | src/components/workorders/WorkOrdersList.tsx:190-202 | The table is an order-preserving subsequence of the list. An order is shown exactly when its title, id or asset contains the search term ignoring case and it passes the status and priority drop-downs ("all" or equal). Every shown order keeps its multiplicity. |
| WorkOrders.FilterShowsEverythingByDefault | src/components/workorders/WorkOrdersList.tsx:190-202 | An empty search with both drop-downs on "all" shows the whole list. |
| WorkOrders.FilterCriteriaCompose | src/components/workorders/WorkOrdersList.tsx:190-202 | Applying the search, status and priority criteria one after another, in either order, gives the same rows as the combined filter. |
| WorkOrders.DeleteWorkOrder | src/components/workorders/WorkOrdersList.tsx:234-236 | Deleting removes every order carrying the id and keeps the others in order and with their multiplicity. The list shrinks by the number of orders with that id. |
| WorkOrders.DeleteAbsentIsNoOp | src/components/workorders/WorkOrdersList.tsx:234-236 | Deleting an id no order carries leaves the list unchanged. |
| WorkOrders.DeleteIdempotent | src/components/workorders/WorkOrdersList.tsx:234-236 | Deleting the same id twice is the same as deleting it once. |
| WorkOrders.CreateWorkOrder | src/components/workorders/WorkOrdersList.tsx:262-274 | Creating appends one pending, unassigned order and leaves the existing orders as they were. The new order holds the form's title, priority, description and verbatim asset key, with id "WO-2023-" + the list length plus 8. It is created and updated today, and due today when no due date is given. |
| WorkOrders.EditWorkOrder | src/components/workorders/WorkOrdersList.tsx:244-255 | Only orders with the selected id change. Each keeps its id, status, assignee, asset and creation date. It takes the form's title, priority and description, keeps its due date unless the values carry one, and is updated today. |
| WorkOrders.SubmitWorkOrder | src/components/workorders/WorkOrdersList.tsx:243-283 | In edit mode with a selected order the list keeps its length. Otherwise one order is appended after the unchanged list. |
| WorkOrders.AssignedStatus | src/components/workorders/WorkOrdersList.tsx:305 | Assignment never moves a status backwards. Pending becomes in-progress, and every other status stays. |
| WorkOrders.AssignWorkOrder | src/components/workorders/WorkOrdersList.tsx:285-310 | Orders with other ids are untouched. Orders with the id get the technician's display name (tech-001..tech-004 by name, any other id "Robert Williams"), and pending ones become in-progress. |
| WorkOrders.MarkCompleted | src/components/workorders/WorkOrdersList.tsx:322-331 | Every order with the id becomes completed whatever its status, and all others are untouched. |
| WorkOrders.FindWorkOrder | src/components/workorders/WorkOrdersList.tsx:339-341 | The lookup fails exactly when no order has the id. Otherwise it returns a listed order with that id. |
| WorkOrders.CompleteWorkOrderEffect | src/components/workorders/WorkOrdersList.tsx:317-364 | After completion, the list starts with the marked list: orders with the id are completed and updated today with every other field kept, and the others are untouched. Exactly one order is appended when follow-up was asked for and the order exists; otherwise none is. |
| WorkOrders.CompleteWorkOrderFollowUp | src/components/workorders/WorkOrdersList.tsx:338-357 | The marked list is kept in front. The appended follow-up order is titled "Follow-up: " + the title of the first order with the id and is on that order's asset. It is medium priority, pending, unassigned, due in a week, created today and numbered length plus 8. Its description ends with the completion notes. |
| WorkOrders.LifecycleIsMonotone | src/components/workorders/WorkOrdersList.tsx:285-331 | Assignment and completion never move an order backwards in pending → in-progress → completed, and reassignment keeps a completed order completed. |
| WorkOrders.MarkCompletedIdempotent | src/components/workorders/WorkOrdersList.tsx:322-331 | Completing the same id twice is the same as completing it once. |
| WorkOrders.SeedCreationScenario | src/components/workorders/WorkOrdersList.tsx:79-172 | On the seven seed orders, creating from the form gives a pending, unassigned WO-2023-015 on the chosen asset key. |
| WorkOrderForm.PriorityOptionsAreThePriorities | src/components/workorders/WorkOrderForm.tsx:52-57 | The priority drop-down offers low, medium, high and critical. Every priority of an order is offered, and each value reads back as its priority. |
| WorkOrderForm.PriorityOfOptions | src/components/workorders/WorkOrderForm.tsx:52-57 | A drop-down value names a priority exactly when it is one of the options. |
| WorkOrderForm.InitialValues | src/components/workorders/WorkOrderForm.tsx:76-83 | Without defaults the form starts with an empty title, medium priority, no asset and an empty description. Given defaults are used as they are. |
| WorkOrderForm.EditDefaults | src/components/workorders/WorkOrdersList.tsx:605-613 | The form opened to edit an order starts with that order's title, asset, priority and description, and with no due date. |
| WorkOrderForm.EditWithOwnDefaults | src/components/workorders/WorkOrdersList.tsx:244-255 | Submitting the edit form with its defaults untouched leaves each edited order as it was, except that it is updated today. |
| WorkOrderForm.Validate | src/components/workorders/WorkOrderForm.tsx:93-123 | The first failing check wins. A title that is blank once trimmed is rejected with "Title is required". Otherwise an empty asset is rejected with "Asset selection is required". Values passing both are submitted unchanged. |
| WorkOrderForm.DefaultFormIsRejected | src/components/workorders/WorkOrderForm.tsx:76-102 | Submitting the untouched create form reports only the title error. |
| WorkOrderForm.PressSubmit | src/components/workorders/WorkOrderForm.tsx:93-122 | A rejected submission leaves the list unchanged. An accepted create appends one order with the form's title after the unchanged list. |
| WorkOrderForm.CreatedThroughFormIsFilledIn | src/components/workorders/WorkOrderForm.tsx:96-110 | Every order created through the form has a title that is not blank and a non-empty asset key. |
| AssignModal.RosterNamesAgreeWithList | src/components/workorders/AssignWorkOrderModal.tsx:61-97 | For each roster technician, the name the list stores on assignment is the roster's name. |
| AssignModal.SelectableIds | src/components/workorders/AssignWorkOrderModal.tsx:159 | Exactly tech-001..tech-004 can be picked. The unavailable tech-005 entry is disabled. |
| AssignModal.Choose | src/components/workorders/AssignWorkOrderModal.tsx:159 | Picking an entry keeps the notes. The selection becomes the id exactly when the entry is enabled (or it was already selected). A disabled or unknown entry changes nothing. |
| AssignModal.Submit | src/components/workorders/AssignWorkOrderModal.tsx:99-114 | Something is assigned exactly when there is a work order and a technician is chosen. Otherwise the dialog state is unchanged. An assignment carries the order's id, the chosen technician and the notes, and clears both fields. |
| AssignModal.ConsistentIsInvariant | src/components/workorders/AssignWorkOrderModal.tsx:56-114 | "Nothing chosen or an enabled entry chosen" holds initially and is kept by picking, typing notes and submitting. |
| AssignModal.SubmittedTechnicianIsSelectable | src/components/workorders/AssignWorkOrderModal.tsx:101-114 | In a consistent dialog every submission names an enabled technician, so the list never stores the fall-through name. |
| CompleteModal.ResetForm | src/components/workorders/CompleteWorkOrderModal.tsx:83-89 | The reset writes empty notes, one hour, no parts, no follow-up and no files. |
| CompleteModal.ResetIsInitial | src/components/workorders/CompleteWorkOrderModal.tsx:49-53 | Resetting from any state gives the dialog's initial state, and a second reset changes nothing. |
| CompleteModal.BlankNotesAccepted | src/components/workorders/CompleteWorkOrderModal.tsx:213 | Non-empty notes made only of whitespace enable the button: the notes are not trimmed. |
| CompleteModal.Press | src/components/workorders/CompleteWorkOrderModal.tsx:66-81 | A payload is sent exactly when there is a work order and the notes are not empty. It carries the order's id and exactly the current notes, time, parts and follow-up flag, and the form returns to its initial state. Otherwise nothing changes. |
| CompleteModal.DialogFollowUpCarriesNotes | src/components/workorders/CompleteWorkOrderModal.tsx:66-81 | Completing a listed order from the dialog with follow-up ticked completes it and keeps the marked list in front and appends one order whose description ends with the typed notes. |
| Assets.FilterAssets | src/components/assets/AssetsList.tsx:219-232 | The table is an order-preserving subsequence of the register. An asset is shown exactly when its name, id or location contains the search term ignoring case, its status passes the drop-down, and its type equals the type filter ignoring case (or the filter is "all"). |
| Assets.AssetTypes | src/components/assets/AssetsList.tsx:456 | The type drop-down is strictly ascending and holds exactly the types occurring in the register. |
| Assets.TypeOptionShowsItsAssets | src/components/assets/AssetsList.tsx:219-232 | Choosing an offered type, with no search, shows every asset of that type, so no option leads to an empty table. |
| Assets.DeleteAsset | src/components/assets/AssetsList.tsx:264-265 | Deleting removes exactly the assets with the id and keeps the rest in order and with their multiplicity. |
| Assets.DeleteAbsentIsNoOp | src/components/assets/AssetsList.tsx:264-265 | Deleting an absent id leaves the register unchanged. |
| Assets.CreateAsset | src/components/assets/AssetsList.tsx:290-307 | Creating appends one asset after the unchanged register. It has id "AST-" + length plus 8 and perfect health (100), was never maintained ("N/A") and is "Not scheduled". It carries the form's name, type, location, status, manufacturer, model, serial number, description and warranty date. Its purchase date is the picked one, or today when none was picked. |
| Assets.EditAsset | src/components/assets/AssetsList.tsx:272-283 | Only assets with the selected id change. Each keeps its id, health score and maintenance dates. It takes every field of the form: name, type, location, status, manufacturer, model, serial number, description, and both dates. A cleared purchase-date picker stores no date. |
| Assets.SubmitAsset | src/components/assets/AssetsList.tsx:272-316 | An edit keeps the register's length. A creation appends one asset after the unchanged register. |
| Assets.ScheduledStatus | src/components/assets/AssetsList.tsx:328-331 | After scheduling no asset needs maintenance. Any other status is kept. |
| Assets.ScheduleMaintenance | src/components/assets/AssetsList.tsx:318-335 | Without a selected asset nothing happens. Otherwise the assets with its id get the scheduled date and go from needs-maintenance to operational, with no other field changed; all other assets are untouched. |
| Assets.ScheduleMaintenanceIdempotent | src/components/assets/AssetsList.tsx:318-335 | Scheduling the same date twice is the same as scheduling it once. |
| Assets.HealthBadge | src/components/assets/AssetsList.tsx:442-454 | The five bands cover every score: Excellent from 90, Good from 75 to 89, Fair from 60 to 74, Poor from 40 to 59, Critical below 40. A cut point belongs to the higher band. |
| Assets.BarAgreesWithBadge | src/components/assets/AssetsList.tsx:553-563 | The health bar's colour is the colour of the badge's band, and different bands have different colours. |
| Assets.HealthBadgeMonotone | src/components/assets/AssetDetails.tsx:101-113 | A higher score never gives a worse band (the details view uses the same cut points). |
| AssetForm.StatusOptionsAreTheStatuses | src/components/assets/AssetForm.tsx:75-80 | The status options are the four asset statuses, each once, each under the name the list filters by. |
| AssetForm.InitialValues | src/components/assets/AssetForm.tsx:90-101 | Without defaults the form starts operational, with empty name, type and location and no purchase date. Given defaults are used as they are. |
| AssetForm.Validate | src/components/assets/AssetForm.tsx:103-133 | The first failing check wins. A blank name (once trimmed) gives "Asset name is required". Otherwise an empty type gives "Asset type is required". Passing values are submitted unchanged. |
| AssetForm.DefaultFormIsRejected | src/components/assets/AssetForm.tsx:91-113 | The untouched add form reports only the name error. |
| AssetForm.CreatedThroughFormIsFilledIn | src/components/assets/AssetForm.tsx:106-132 | Every asset created through the form has a name that is not blank and a type. |
| AssetHistory.ReduceCostIsSum | src/components/assets/AssetHistory.tsx:302-305 | The front-to-back reduction of the costs from any start value is that value plus the sum of the costs. |
| AssetHistory.TotalCost | src/components/assets/AssetHistory.tsx:529 | The total cost is the sum of the record costs. |
| AssetHistory.KindCost | src/components/assets/AssetHistory.tsx:441-443 | A kind's total is the sum of the costs of the records of that kind. |
| AssetHistory.KindCostsPartitionTotal | src/components/assets/AssetHistory.tsx:441-499 | The preventive, corrective and inspection totals add up to the total, since every record is of one of the three kinds. |
| AssetHistory.KindCostBounded | src/components/assets/AssetHistory.tsx:449-458 | With non-negative costs, each kind's total lies between 0 and the total, so each kind's bar is between 0 and 100 percent. |
| AssetHistory.MaxCost | src/components/assets/AssetHistory.tsx:545 | The highest cost is absent exactly for an empty history. Otherwise it is at least every record's cost and equals one of them. |
| AssetHistory.RecordTotals | src/components/assets/AssetHistory.tsx:95-150 | The dialog's five records cost 3000 in total, and 150 of that is inspection. |
| AssetHistory.RecordMaximum | src/components/assets/AssetHistory.tsx:545 | The highest single cost of the five records is 1200. |
| AssetHistory.HealthHistory | src/components/assets/AssetHistory.tsx:153-164 | There are ten readings. The newest is the current score, and every reading lies between the score minus 25 and the score. |
| AssetHistory.HealthHistoryIsNotClamped | src/components/assets/AssetHistory.tsx:158 | The fifth reading is the score minus 25 even when that is negative. |
| AssetHistory.HealthSeries | src/components/assets/AssetHistory.tsx:167-172 | The health chart has the history's length and shows it oldest first. |
| AssetHistory.CostSeries | src/components/assets/AssetHistory.tsx:174-180 | The cost chart has one point per record, oldest first, carrying the record's date, cost and kind. |
| AssetHistory.HealthSeriesReversible | src/components/assets/AssetHistory.tsx:167-172 | Reading the health chart back to front gives the history. |
| AssetHistory.Render | src/components/assets/AssetHistory.tsx:92-180 | Without an asset nothing is rendered. Otherwise the newest of the ten health readings is the asset's score and ends the chart, and the total is the sum of the records shown. |
| Inventory.FilterInventory | src/components/inventory/InventoryList.tsx:191-204 | The table is an order-preserving subsequence of the list. An item is shown exactly when its name, id or supplier contains the search term ignoring case, its status passes the drop-down, and its category equals the filter ignoring case (or the filter is "all"). |
| Inventory.CategoryFilterIgnoresCase | src/components/inventory/InventoryList.tsx:199-201 | Two category filters that differ only in case show the same items. |
| Inventory.CategoryOptions | src/components/inventory/InventoryList.tsx:322-324 | The category drop-down is strictly ascending and holds exactly the categories occurring in the list. |
| Inventory.CategoryOptionsUnique | src/components/inventory/InventoryList.tsx:322-324 | Any strictly ascending list of exactly those categories is the drop-down. |
| Inventory.DeleteItem | src/components/inventory/InventoryList.tsx:224-225 | Deleting removes exactly the items with the id and keeps the rest in order and with their multiplicity. |
| Inventory.DeleteAbsentIsNoOp | src/components/inventory/InventoryList.tsx:224-225 | Deleting an absent id leaves the list unchanged. |
| Inventory.CreateItem | src/components/inventory/InventoryList.tsx:250-267 | Creating appends one item after the unchanged list. It has id "INV-" + length plus 8, every form field, today's order date and no next order date. |
| Inventory.EditItem | src/components/inventory/InventoryList.tsx:233-243 | Only items with the selected id change. Each keeps its id and order dates and takes every field of the form: name, category, location, status, quantity, minimum, unit price, supplier and description. |
| Inventory.EditWithOwnValuesIsNoOp | src/components/inventory/InventoryList.tsx:233-243 | Editing an item with the values it already has changes nothing. |
| Inventory.SubmitItem | src/components/inventory/InventoryList.tsx:232-276 | An edit keeps the list's length. A creation appends one item after the unchanged list. |
| Inventory.StockColour | src/components/inventory/InventoryList.tsx:316-320 | Red exactly when nothing is left. Yellow exactly when some is left but at most the minimum. Green exactly above the minimum. |
| InventoryDetails.Badge | src/components/inventory/InventoryDetails.tsx:94-107 | "Out of Stock" exactly at quantity 0. With a non-negative minimum: Critical for 2·q ≤ min, Low for min < 2·q and q ≤ min, Moderate for min < q ≤ 2·min, Healthy above. For a negative minimum the comparisons turn over, as the quotient's sign does. |
| InventoryDetails.BarAgreesWithBadge | src/components/inventory/InventoryDetails.tsx:196-206 | With a non-negative minimum, the stock bar's colour is the colour of the badge. |
| InventoryDetails.BadgeMonotone | src/components/inventory/InventoryDetails.tsx:94-107 | For a fixed non-negative minimum, more stock never gives a worse badge. |
| InventoryDetails.Trend | src/components/inventory/InventoryDetails.tsx:247-257 | "Stock Level Healthy" exactly above the minimum, "Stock Level Low" otherwise. |
| InventoryDetails.TrendAgreesWithBadge | src/components/inventory/InventoryDetails.tsx:247-257 | For stock on hand and a non-negative minimum, the trend is healthy exactly when the badge is Moderate or Healthy. |
| InventoryDetails.ListColourAgreesWithBadge | src/components/inventory/InventoryList.tsx:316-320 | With a non-negative minimum, the list's dot is red exactly for Out of Stock, yellow exactly for Critical or Low, and green exactly for Moderate or Healthy. |
| InventoryForm.StatusOptionsNamed | src/components/inventory/InventoryForm.tsx:72-77 | The four status options each name a different stock status under the name the list filters by. |
| InventoryForm.InitialValues | src/components/inventory/InventoryForm.tsx:87-99 | Without defaults the form starts in stock, with quantity 0, minimum 10 and empty name and category. Given defaults are used as they are. |
| InventoryForm.Validate | src/components/inventory/InventoryForm.tsx:101-131 | The first failing check wins. A blank name (once trimmed) gives "Item name is required". Otherwise an empty category gives "Category is required". Passing values are submitted unchanged. |
| InventoryForm.DefaultFormIsRejected | src/components/inventory/InventoryForm.tsx:88-110 | The untouched add form reports only the name error. |
| InventoryForm.ParseQuantity | src/components/inventory/InventoryForm.tsx:261 | A quantity input stores the base-10 `parseInt` of its text, or 0 where that is NaN. |
| InventoryForm.ParseQuantityRoundTrip | src/components/inventory/InventoryForm.tsx:261 | A typed number up to `Number.MAX_SAFE_INTEGER` reads back as itself, with or without leading zeros. |
| InventoryForm.ParseQuantityOfNonNumbers | src/components/inventory/InventoryForm.tsx:287 | Empty or non-numeric text becomes 0. |
| InventoryForm.ParseQuantityIgnoresTrailingText | src/components/inventory/InventoryForm.tsx:287 | A number up to `Number.MAX_SAFE_INTEGER` followed by text that does not start with a digit reads as the number. |
| Notifications.NotificationId | src/components/notifications/NotificationCenter.tsx:149 | An id is "notif-" followed by digits. |
| Notifications.NotificationIdInjective | src/components/notifications/NotificationCenter.tsx:149 | Different creation positions give different ids. |
| Notifications.RoundDiv | src/components/notifications/NotificationCenter.tsx:141-145 | `Math.round(a / b)` is the integer nearest the quotient, with halves rounding up. |
| Notifications.HoursLabelReadsBack | src/components/notifications/NotificationCenter.tsx:179-184 | The label's leading number reads back as the hours below a day and as the whole days from a day on. |
| Notifications.HoursLabelUnit | src/components/notifications/NotificationCenter.tsx:179-184 | The label ends in "hours ago" exactly below 24 hours and in " days ago" exactly from 24 on. |
| Notifications.LabelsAgreeBelowADay | src/components/notifications/NotificationCenter.tsx:140-145 | For whole hours below a day, the sample labelling and the random labelling agree. |
| Notifications.LabelsDifferFromADay | src/components/notifications/NotificationCenter.tsx:145 | From a day on they differ: 36 hours is "2 days ago" for a sample and "1 days ago" for a random notification. |
| Notifications.SampleShift | src/components/notifications/NotificationCenter.tsx:137 | A sample aged a whole number of hours is stamped exactly that many hours back. |
| Notifications.FirstSampleShift | src/components/notifications/NotificationCenter.tsx:137 | The first sample, 0.2 hours old, is stamped one hour back, or not at all at midnight, because `setHours` truncates. |
| Notifications.RandomTextRelatedIds | src/components/notifications/NotificationCenter.tsx:190-229 | A generated notification has a related id exactly when it is about a work order, an asset (alert or update) or maintenance (reminder), and then its message mentions the id. |
| Notifications.Unsorted | src/components/notifications/NotificationCenter.tsx:135-242 | In creation order the feed has 25 notifications with ids notif-1 to notif-25. |
| Notifications.InsertNewest | src/components/notifications/NotificationCenter.tsx:245-247 | Inserting into a newest-first list keeps it newest first and adds exactly that notification. |
| Notifications.SortNewest | src/components/notifications/NotificationCenter.tsx:245-247 | The sort gives a newest-first permutation of its input. |
| Notifications.Generate | src/components/notifications/NotificationCenter.tsx:38-248 | The feed has 25 notifications, newest first, and is a permutation of the created ones. |
| Notifications.GeneratedIds | src/components/notifications/NotificationCenter.tsx:38-248 | The feed holds exactly the ids notif-1 to notif-25, each at one position. |
| Notifications.PermutedIds | src/components/notifications/NotificationCenter.tsx:245-247 | A permutation of a list numbered notif-1, notif-2, … holds each of those ids once and no others. |
| Notifications.UnreadCount | src/components/notifications/NotificationCenter.tsx:257 | The badge is at most the feed's length. It is 0 exactly when all are read and the full length exactly when none is. |
| Notifications.FilterNotifications | src/components/notifications/NotificationCenter.tsx:259-286 | The list is an order-preserving subsequence of the feed. A notification is shown exactly when it passes the tab ("all", unread, or its type) and the category drop-down ("all" or equal). |
| Notifications.UnknownTabShowsNothing | src/components/notifications/NotificationCenter.tsx:285 | A tab other than the five shows nothing. |
| Notifications.AllTabShowsEverything | src/components/notifications/NotificationCenter.tsx:260-263 | The "all" tab with all categories shows the whole feed. |
| Notifications.UnreadTabMatchesBadge | src/components/notifications/NotificationCenter.tsx:257-268 | The "unread" tab with all categories lists as many notifications as the badge counts. |
| Notifications.TypeTabsPartitionAll | src/components/notifications/NotificationCenter.tsx:259-286 | Under any category, the alert, update and reminder tabs together count what the "all" tab counts. |
| Notifications.MarkAsRead | src/components/notifications/NotificationCenter.tsx:350-358 | Length and order are kept, and nothing but the read flag changes. A notification ends read exactly when it was read or has the id. |
| Notifications.MarkAsReadCount | src/components/notifications/NotificationCenter.tsx:360-363 | The unread count the handler logs is the badge after the change. |
| Notifications.MarkAllAsRead | src/components/notifications/NotificationCenter.tsx:369-373 | Every notification becomes read and nothing else changes. |
| Notifications.MarkAllAsReadClears | src/components/notifications/NotificationCenter.tsx:369-373 | Afterwards the badge is 0, and doing it again changes nothing. |
| Notifications.MarkAllAsReadMarksEachId | src/components/notifications/NotificationCenter.tsx:350-373 | Marking everything read absorbs marking any one id read, before or after. |
| Notifications.DeleteNotification | src/components/notifications/NotificationCenter.tsx:375-379 | Deleting removes the notifications with the id and keeps the rest in order and with their multiplicity. |
| Notifications.DeleteAbsentIsNoOp | src/components/notifications/NotificationCenter.tsx:375-379 | Deleting an absent id leaves the feed unchanged. |
| Notifications.DeleteUnreadCount | src/components/notifications/NotificationCenter.tsx:375-379 | After a delete the badge counts the unread notifications with other ids, so it never rises. |
| MaintenanceSchedule.MakeTask | src/components/maintenance/MaintenanceSchedule.tsx:113-132 | Task number n is planned: its id carries n, it falls n − 10 days from today, it lasts 1 to 5 hours, and it names a catalogue (asset, asset id) pair and a roster technician. |
| MaintenanceSchedule.GenerateTasks | src/components/maintenance/MaintenanceSchedule.tsx:74-136 | There are exactly 30 tasks, and the k-th is planned as task number k. |
| MaintenanceSchedule.GeneratedIdsAreNumbered | src/components/maintenance/MaintenanceSchedule.tsx:122 | The ids read back as 1 to 30 in order and are pairwise different. |
| MaintenanceSchedule.GeneratedDatesIncrease | src/components/maintenance/MaintenanceSchedule.tsx:80-81 | A later task number falls on a strictly later day. |
| MaintenanceSchedule.TitleNamesTypeAndAsset | src/components/maintenance/MaintenanceSchedule.tsx:123 | The title starts with the task's type with its first letter upper-case and the rest as the type is named, and ends with the asset's name. |
| MaintenanceSchedule.FilterTasks | src/components/maintenance/MaintenanceSchedule.tsx:186-193 | The list view is an order-preserving subsequence of the schedule. A task is shown exactly when its status and type pass the drop-downs ("all" or equal). |
| MaintenanceSchedule.FilterTasksComposes | src/components/maintenance/MaintenanceSchedule.tsx:186-193 | Filtering by status and then by type is the combined filter. |
| MaintenanceSchedule.FilterTasksShowsAllByDefault | src/components/maintenance/MaintenanceSchedule.tsx:186-193 | Both drop-downs on "all" show every task. |
| MaintenanceSchedule.TasksForSelectedDate | src/components/maintenance/MaintenanceSchedule.tsx:153-164 | No selected date shows nothing. Otherwise the view holds, in schedule order and with their multiplicity, exactly the tasks on the selected calendar day. |
| MaintenanceSchedule.TodayShowsTaskTen | src/components/maintenance/MaintenanceSchedule.tsx:79-81 | Today's view of the generated schedule holds exactly task MT-2023-010. |
| MaintenanceSchedule.DatesWithTasks | src/components/maintenance/MaintenanceSchedule.tsx:167-170 | There is one marked day per task, in order: the task's day at midnight. |
| MaintenanceSchedule.EstimatedTimeReadsBack | src/components/maintenance/MaintenanceSchedule.tsx:371-373 | The estimated time shown for a task reads back, with `parseInt`, as its hours, and ends in a plural 's' exactly when the hours are not 1. |
| Dates.ShiftMonth | src/components/maintenance/MaintenanceSchedule.tsx:173-183 | The neighbouring month is always a valid date. For a day up to 28 it keeps the day and moves (year, month) by one, carrying across the year. |
| Dates.ShiftMonthOverflows | src/components/dashboard/MaintenanceCalendar.tsx:97-101 | A day the next month lacks overflows: one month after 31 January 2023 is 3 March 2023. |
| Dates.AddDaysMonotone | src/components/maintenance/MaintenanceSchedule.tsx:80-81 | Adding more days gives a strictly later day, so different offsets give different days. |
| Dates.NextPrevInverse | src/components/maintenance/MaintenanceSchedule.tsx:80-81 | One day forward and one back, or back and forward, return to the same day. |
| Dates.SelectDayIgnoresTime | src/components/dashboard/MaintenanceCalendar.tsx:74-81 | The day view depends only on the selected calendar day, not its time. |
| MaintenanceCalendar.DefaultTasks | src/components/dashboard/MaintenanceCalendar.tsx:30-61 | There are four default tasks, all at the present time of day. |
| MaintenanceCalendar.TasksForSelectedDate | src/components/dashboard/MaintenanceCalendar.tsx:71-82 | No selected date shows nothing. Otherwise the view holds, in order and with their multiplicity, exactly the tasks with the selected year, month and day. |
| MaintenanceCalendar.DefaultTodayView | src/components/dashboard/MaintenanceCalendar.tsx:46-53 | With the default tasks, today shows only task "3". |
| MaintenanceCalendar.DefaultTomorrowView | src/components/dashboard/MaintenanceCalendar.tsx:38-45 | Tomorrow shows only task "2". |
| MaintenanceCalendar.DatesWithTasks | src/components/dashboard/MaintenanceCalendar.tsx:85-88 | There is one marked day per task, in task order: the task's day at midnight. |
| MaintenanceCalendar.PreviousMonth | src/components/dashboard/MaintenanceCalendar.tsx:91-95 | The result is a valid date at the same time of day. For a day up to 28 it keeps the day and steps (year, month) back by one. |
| MaintenanceCalendar.NextMonth | src/components/dashboard/MaintenanceCalendar.tsx:97-101 | The result is a valid date at the same time of day. For a day up to 28 it keeps the day and steps (year, month) forward by one. |
| MaintenanceCalendar.MonthNavigationRoundTrip | src/components/dashboard/MaintenanceCalendar.tsx:91-101 | For a day up to 28, one month forward and one back (or back and forward) returns to the same moment. |
| Profile.MatchesEmailIffShape | src/components/profile/ProfilePage.tsx:77 | The pattern accepts an address exactly when it has the shape local@domain. Local is non-empty with no whitespace or '@'. Domain has no whitespace or '@' and holds a '.' with text on both sides. |
| Profile.AcceptedAddressHasOneAtSign | src/components/profile/ProfilePage.tsx:77 | An accepted address has no whitespace and exactly one '@', not at the start. |
| Profile.JoinedAddressAccepted | src/components/profile/ProfilePage.tsx:77 | Any non-empty plain local part joined by '@' to a valid domain is accepted. |
| Profile.StoredAddressAccepted | src/components/profile/ProfilePage.tsx:32 | The page's own address is accepted. |
| Profile.NoDotRejected | src/components/profile/ProfilePage.tsx:77 | "a@b" is rejected: the domain needs a dot. |
| Profile.LeadingDotRejected | src/components/profile/ProfilePage.tsx:77 | "a@.b" is rejected: the dot needs text before it. |
| Profile.SpaceRejected | src/components/profile/ProfilePage.tsx:77 | "a b@c.d" is rejected: no whitespace is allowed. |
| Profile.BlankAddressNeverMatches | src/components/profile/ProfilePage.tsx:75-78 | A blank address fails the pattern, so the handler's separate blank test never decides anything. |
| Profile.StoreProfile | src/components/profile/ProfilePage.tsx:87-95 | The stored record gains or overwrites exactly "name" and "email". Every other key keeps its value. |
| Profile.SaveProfile | src/components/profile/ProfilePage.tsx:68-96 | A blank name (once trimmed) gives the name alert, whatever the e-mail. Otherwise a non-matching e-mail gives the e-mail alert. Otherwise the save succeeds and stores the name and e-mail. |
| Profile.SaveIsIdempotent | src/components/profile/ProfilePage.tsx:87-95 | Saving again over the record a save produced changes nothing. |
| Profile.ParseSkills | src/components/profile/ProfilePage.tsx:310-313 | Every parsed skill is non-empty and has no surrounding whitespace or comma. |
| Profile.SkillsRoundTrip | src/components/profile/ProfilePage.tsx:306-313 | For trimmed, non-empty, comma-free skills, parsing the text `join(", ")` shows gives the same list. |
| Profile.SplitShown | src/components/profile/ProfilePage.tsx:306-311 | Splitting the shown text at commas gives the first skill and then each further skill after one space. |
| Profile.FirstChars | src/components/profile/ProfilePage.tsx:134-137 | The initials are at most one per segment, and each is the first character of a non-empty segment. |
| Profile.Initials | src/components/profile/ProfilePage.tsx:134-137 | The initials never contain a space. |
| Profile.InitialsOfWords | src/components/profile/ProfilePage.tsx:134-137 | For words without spaces joined by single spaces, the initials are the words' first characters. |
| Profile.FirstCharsSkipsEmpty | src/components/profile/ProfilePage.tsx:134-137 | Empty segments (from doubled spaces) contribute nothing. |
| Profile.FirstCharsOfWords | src/components/profile/ProfilePage.tsx:134-137 | Non-empty words give exactly one initial each, in order. |
| Profile.InitialsOfTwoNames | src/components/profile/ProfilePage.tsx:134-137 | A first and last name without spaces, joined by one space ("John Doe") or by two ("John  Doe"), give their two first characters. |
| TimePicker.TwoDigitsIsPadded | src/components/ui/time-picker.tsx:50 | An option's text is its number printed and zero-padded to two characters. |
| TimePicker.TwoDigitsReadBack | src/components/ui/time-picker.tsx:50 | Two-digit text reads back as its number. |
| TimePicker.TwoDigitsInjective | src/components/ui/time-picker.tsx:66 | Different numbers below 100 give different texts. |
| TimePicker.Options | src/components/ui/time-picker.tsx:20-21 | There are `count` options, each two digits reading back as its position and pairwise different. |
| TimePicker.OptionsNameTheirNumber | src/components/ui/time-picker.tsx:49-69 | The hour options are 00..23 and the minute options 00..59, each two digits naming its own number. |
| TimePicker.InitialSelection | src/components/ui/time-picker.tsx:23-28 | Without a time (or with an empty one) the selection is "09" and "00". Otherwise the hour is the text before the first ':'. There is a minute exactly when the text has a ':', and it is the text after that ':' up to the next one. |
| TimePicker.Emit | src/components/ui/time-picker.tsx:30-34 | A time is emitted exactly when there is a minute. It is at least five characters with the ':' right after the padded hour. |
| TimePicker.FormatTime | src/components/ui/time-picker.tsx:30-34 | An emitted time is five characters with ':' in the middle. |
| TimePicker.EmitOptions | src/components/ui/time-picker.tsx:30-53 | Choosing hour option h and minute option m emits h and m as `HH:MM`. |
| TimePicker.SplitFormattedTime | src/components/ui/datetime-picker.tsx:27 | Splitting an emitted time at ':' gives its two-digit hour and minute. |
| TimePicker.ReopenRestoresSelection | src/components/ui/time-picker.tsx:23-34 | Reopening the picker on the time it emitted selects the same options. |
| TimePicker.ReadTime | src/components/ui/datetime-picker.tsx:27-30 | A time without ':' has no minute to read. |
| TimePicker.TimeRoundTrip | src/components/ui/datetime-picker.tsx:27-30 | For h in 0..23 and m in 0..59, formatting and reading back with base-10 `parseInt` gives (h, m). |
| TimePicker.SetHours | src/components/ui/datetime-picker.tsx:29 | The result is a valid moment. An hour in 0..23 keeps the day and the minutes, seconds and milliseconds. |
| TimePicker.SetMinutes | src/components/ui/datetime-picker.tsx:30 | The result is a valid moment. A minute in 0..59 keeps the day, the hour and the seconds and milliseconds. |
| TimePicker.ApplyTime | src/components/ui/datetime-picker.tsx:25-33 | The date survives exactly when both numbers read; then it is a valid moment. |
| TimePicker.SetClockInRange | src/components/ui/datetime-picker.tsx:28-30 | Setting an in-range hour and minute keeps the day and sets the time of day to h:m, keeping seconds and milliseconds. |
| TimePicker.ApplyEmittedTime | src/components/ui/datetime-picker.tsx:25-33 | Applying an emitted h:m keeps the day and sets the time of day to h:m, keeping seconds and milliseconds. |
| TimePicker.StartingTime | src/components/ui/datetime-picker.tsx:21-23 | The starting text is five characters with ':' in the middle, and "09:00" without a date. |
| TimePicker.StartingTimeIsNeutral | src/components/ui/datetime-picker.tsx:21-33 | Applying the starting time to its own date gives the date back unchanged. |
| Ordering.SortedDistinct | src/components/assets/AssetsList.tsx:456 | `[...new Set(xs)].sort()` is strictly ascending and holds exactly the values of `xs`. |
| Ordering.StrictlySortedUnique | src/components/inventory/InventoryList.tsx:322-324 | Two strictly ascending lists with the same values are equal. |
| Ordering.BelowTotal | src/components/inventory/InventoryList.tsx:322-324 | The default sort order compares any two different strings one way or the other. |
| Ordering.BelowTransitive | src/components/inventory/InventoryList.tsx:322-324 | The default sort order is transitive. |

## Left out

- Rendering: JSX, badges' CSS and icons, dialogs opening and closing, toasts, `alert`, `console.log`, the simulated latency of `setTimeout` and the `isSubmitting` flags. None of them changes the modelled lists.
- Browser storage: `localStorage` holds the user record as JSON text. It is modelled as a map from keys to strings, and JSON encoding is not modelled.
- Dates and clocks are parameters: `today`, `inAWeek` (`setDate(getDate() + 7)`), the present moment and the present hour of the notification feed. ISO formatting (`toISOString().split("T")[0]`), time zones and daylight-saving changes are not modelled. A day has exactly 24 hours.
- `Math.random` is a parameter: the draws the generated tasks and notifications are built from. Only the deterministic ids, counts, bounds and texts are stated.
- Id uniqueness: every create numbers its record with the list's length plus 8, which can repeat an id after a delete. The model keeps the scheme and states nothing about uniqueness. Delete, edit, assign and complete act on every record carrying an id.
- Floating point: unit prices, time spent, durations and percentages are carried as `real` and only copied. `toFixed`, bar widths, the average cost and `parseFloat` of the price field are not modelled.
- InventoryForm.ParseQuantity: `parseInt` returns a double. The model reads digits into an exact integer, so it does not model the rounding of digit strings above `Number.MAX_SAFE_INTEGER` (2^53 − 1). It also does not model the Infinity that 309 or more digits give, which `|| 0` keeps. The two read-back lemmas are stated up to that bound.
- Characters are Dafny `char`s, i.e. Unicode code points. JavaScript strings are UTF-16 code units. Ordering.Below therefore compares code points where `sort()` compares code units; the two orders differ only between a character outside the Basic Multilingual Plane and one in U+E000–U+FFFF. Likewise, Profile.FirstChars takes a whole character where `n[0]` takes the first code unit, which for such a character is a lone surrogate.
- Whitespace and case: `\s`, `trim` and `toLowerCase` are taken on ASCII (space, tab, line breaks, vertical tab, form feed; A–Z). Unicode spaces and non-ASCII case folding are not modelled.
- Notifications.SortNewest: states a newest-first permutation but not the stability of `Array.prototype.sort`.
- Notifications.SampleShift: the shift of samples with fractional ages is the truncation `setHours` applies. The exact result is stated only for whole hours and for the first sample.
- Dates.ShiftMonth: the overflow of `setMonth` into the month after is stated for days up to 28 and by one example (31 January), not in general.
- InventoryDetails.BarAgreesWithBadge: the bar and the badge disagree for a negative minimum, which the inputs' `min="0"` keeps out. The lemma requires a non-negative minimum.
- AssignModal.Submit: the notes reach the list's handler, which ignores them, so the list model has no notes.
- WorkOrders.EditWorkOrder: the form's asset key is spread under the name `assetId`, which is not a field of an order, so editing never changes an order's asset. This is modelled as written.
- Assets.CreateAsset: the list reads a next-maintenance date that the asset form never supplies, so a new asset is always "Not scheduled". The date pickers hand over `Date` objects that are stored unconverted in fields typed as strings; the model treats them as opaque strings, so `Date` formatting is not modelled.
- TimePicker.Emit: a time without ':' leaves the minute undefined and `padStart` throws. The model returns `None` there.
- TimePicker.StartingTime: date-fns `format(date, "HH:mm")` is not part of this model; the starting text is written out from the date's hour and minute.
- AssetDetails, ScheduleMaintenanceModal, WorkOrderDetails, the dashboard widgets, layout and routing: presentation and plumbing. Only the health banding of AssetDetails, which is the list's banding, is cited.
- Charts, file attachments and react-hook-form internals are library code not visible here.
