# CRM front-end core, modelled in Dafny

This project models the state logic of a React CRM front-end. The CRM has no
backend: every screen keeps its data in in-memory lists and changes them
through small handlers. The model covers:

- **Pipeline-stage configuration** (module `Stages`):
  - adding, editing, activating/deactivating and deleting a stage;
  - the in-place `moveStage` reorder, which swaps two neighbours and renumbers `order` to 1..n;
  - the table's in-place stable sort by `order`.
- **Opportunity board** (`Board`, `Column`, `Card`):
  - moving an opportunity to a stage and marking it lost;
  - the per-stage lists and their totals;
  - each column's active/lost split, badge, card order and drop handler;
  - each card's loss dialog (a non-blank reason is required), its draggable and action conditions, and its status badge.
- **Interaction log** (`Detail`, `History`):
  - appending an interaction and marking one completed;
  - the pending and overdue lists;
  - the newest-first stable sort and the per-item conditions of the history panel.
- **Stage-history timeline** (`Timeline`): `formatDuration`, the completed/current classification and the total-days fold.
- **Registries** (`Accounts`, `Contacts`, `Users`): appending records, looking up an account name with its fallback, and role labels and badge variants.
- **Address line** (`Properties`): `formatAddress`.
- **Shared pieces** (`Common`, `Text`):
  - an `Option` type standing for an `undefined` property;
  - JavaScript's `trim()`;
  - `Number.prototype.toString` on integers;
  - `iso.split('T')[0]`.

Each source file keeps its own form in the model:

- **Pure code becomes functions and lemmas.** Handlers that build a new array with `map`, `filter`, `reduce` or a spread are modelled as functions on sequences.
- **Step-by-step code becomes methods.** These are:
  - `moveStage`, which copies into an array, swaps and renumbers in a loop;
  - the table's in-place sort;
  - the card's loss dialog, a class whose fields are the two pieces of React state that `handleMarkAsLost` updates.
- **Clocks and generated ids are parameters:**
  - `stamp` is the value of `Date.now()`;
  - `now` is the current instant in milliseconds;
  - `isoNow` is the text of `new Date().toISOString()`.
- **Dates are instants.** Interaction dates and stage-entry instants are held as the milliseconds their ISO strings denote.

- **`markAsLost` leaves `status` alone.** The board's `markAsLost` sets `isLost` and `lossReason` only; `status` keeps its value.
- **The board's records are incomplete.** They have no `status`, `interactions` or `stageHistory`. The board's `Opportunity` therefore carries `status` as an optional value, which is absent on the board's own records (`Card.StatuslessCardIsInert` shows what that means for the cards).
- **Stage moves keep no history.** `moveOpportunity` only sets `stage` and resets `timeInStage`; no shown code appends or closes stage-history entries.

## Model

| member | source | states |
|---|---|---|
| `Text.TrimStart` | src/components/crm/pipeline/OpportunityCard.tsx:42 | the result is a suffix of the input, everything dropped is whitespace, and the result does not start with whitespace |
| `Text.TrimEnd` | src/components/crm/pipeline/OpportunityCard.tsx:173 | the result is a prefix of the input, everything dropped is whitespace, and the result does not end with whitespace |
| `Text.Trim` | src/components/crm/pipeline/OpportunityCard.tsx:42 | `s.trim()` is a prefix of `s` with its leading whitespace cut, everything cut after it is whitespace too, and it neither starts nor ends with whitespace |
| `Text.TrimIsEmptyIffBlank` | src/components/crm/pipeline/OpportunityCard.tsx:42 | `s.trim()` is truthy exactly when `s` has a non-whitespace character |
| `Text.NatToString` | src/components/crm/accounts/AccountsPage.tsx:33 | `Date.now().toString()` is a non-empty string of decimal digits with no leading zero |
| `Text.NatToStringRoundTrip` | src/components/crm/accounts/AccountsPage.tsx:33 | reading the decimal digits back gives the number |
| `Text.IntToString` | src/components/crm/pipeline/StageHistoryTimeline.tsx:53 | `${n}` is non-empty, starts with '-' exactly for a negative number, and is digits otherwise |
| `Text.IntToStringInjective` | src/components/crm/pipeline/StageHistoryTimeline.tsx:53 | `${n}` is injective on integers |
| `Text.DatePart` | src/components/crm/accounts/AccountsPage.tsx:34 | `split('T')[0]` is the prefix before the first 'T' (or the whole string) and contains no 'T' |
| `Text.DatePartOfTimestamp` | src/components/crm/accounts/AccountsPage.tsx:34 | on "date T time" with a 'T'-free date, the result is the date |
| `Stages.AddStage` | src/components/crm/pipeline/StagesManagement.tsx:83-94 | one active stage is appended with order = previous count + 1 and the submitted name, color and description; earlier stages are untouched |
| `Stages.UpdateStage` | src/components/crm/pipeline/StagesManagement.tsx:96-104 | only matching stages change, by taking the form's name and color (and its description when present); id, order, isActive and createdAt are kept everywhere |
| `Stages.ToggleStageActive` | src/components/crm/pipeline/StagesManagement.tsx:106-113 | `isActive` is flipped on the matching stages and nothing else changes |
| `Stages.ToggleTwiceRestores` | src/components/crm/pipeline/StagesManagement.tsx:106-113 | toggling twice restores the list |
| `Stages.DeleteStage` | src/components/crm/pipeline/StagesManagement.tsx:149-150 | exactly the stages without that id remain; an unknown id leaves the list unchanged |
| `Stages.DeleteStageConcat` | src/components/crm/pipeline/StagesManagement.tsx:150 | deletion distributes over concatenation, so relative order is kept |
| `Stages.AddThenDeleteRestores` | src/components/crm/pipeline/StagesManagement.tsx:83-94 | deleting a just-added stage (with a fresh id) restores the list |
| `Stages.EditsKeepOrdersSequential` | src/components/crm/pipeline/StagesManagement.tsx:83-113 | add, update and toggle keep orders equal to 1..n |
| `Stages.DeleteThenAddRepeatsOrder` | src/components/crm/pipeline/StagesManagement.tsx:89 | delete does not renumber: after deleting any stage but the last (with a unique id) from a list numbered 1..n, the next added stage gets order n, the same as the former last stage, which is still there |
| `Stages.ActiveCount` | src/components/crm/pipeline/StagesManagement.tsx:189 | the "Etapas Ativas" count is at most the total, 0 exactly when no stage is active, and the total exactly when all are |
| `Stages.InactiveCount` | src/components/crm/pipeline/StagesManagement.tsx:201 | the "Etapas Inativas" count is at most the total, 0 exactly when every stage is active, and the total exactly when none is |
| `Stages.ActivePlusInactiveIsTotal` | src/components/crm/pipeline/StagesManagement.tsx:179-201 | the active and inactive counts add up to the total count |
| `Stages.FindIndex` | src/components/crm/pipeline/StagesManagement.tsx:123 | `findIndex` gives the first position holding the id, or -1 when none does |
| `Stages.MoveResult` | src/components/crm/pipeline/StagesManagement.tsx:122-147 | what pressing an arrow does: a reordered list has the input's length, and the TypeError happens exactly when moving down an id that no stage of a non-empty list has |
| `Stages.MoveStage` | src/components/crm/pipeline/StagesManagement.tsx:122-147 | the array copy, swap and renumbering loop produce exactly `MoveResult`: skipped at the two ends, a reordered list otherwise, or a TypeError when an unknown id is moved down in a non-empty list |
| `Stages.MoveAtEndsIsSkipped` | src/components/crm/pipeline/StagesManagement.tsx:124-129 | moving the first stage up, or the last stage (with a unique id) down, changes nothing |
| `Stages.MoveSwapsNeighbours` | src/components/crm/pipeline/StagesManagement.tsx:131-140 | any other move of a present stage swaps it with its neighbour; afterwards orders are 1..n and every other stage keeps its place |
| `Stages.MovePermutes` | src/components/crm/pipeline/StagesManagement.tsx:131-140 | every reordered result is a permutation of the ids, with orders 1..n |
| `Stages.InsertIntoSorted` | src/components/crm/pipeline/StagesManagement.tsx:228 | one insertion pass extends the sorted prefix by one, is a stable rearrangement, leaves everything after position i as it was, and changes nothing when the element is already in place |
| `Stages.SortByOrder` | src/components/crm/pipeline/StagesManagement.tsx:227-228 | the in-place sort leaves the array sorted by order, with the same elements and with equal orders in their old relative order; an already sorted array is unchanged |
| `Stages.SequentialIsSorted` | src/components/crm/pipeline/StagesManagement.tsx:138-140 | orders 1..n are sorted, so the table's sort leaves a reordered list as it is |
| `Board.MoveOpportunity` | src/components/crm/pipeline/PipelineBoard.tsx:79-87 | matching opportunities get the new stage and timeInStage 0, with every other field and every other opportunity kept; length and order are kept |
| `Board.UnknownIdChangesNothing` | src/components/crm/pipeline/PipelineBoard.tsx:79-97 | an id that is not on the board leaves both handlers' results equal to the input |
| `Board.MoveTwice` | src/components/crm/pipeline/PipelineBoard.tsx:79-87 | of two moves of the same id, only the last counts |
| `Board.MoveToSameStageResetsCounter` | src/components/crm/pipeline/PipelineBoard.tsx:83 | moving to the current stage is not a no-op when the day counter is non-zero |
| `Board.MarkAsLost` | src/components/crm/pipeline/PipelineBoard.tsx:89-97 | matching opportunities get isLost and the reason, with stage, timeInStage and status kept; others unchanged |
| `Board.MarkAsLostTwice` | src/components/crm/pipeline/PipelineBoard.tsx:93 | repeating is idempotent, and a later reason overwrites an earlier one |
| `Board.OpportunitiesByStage` | src/components/crm/pipeline/PipelineBoard.tsx:99-101 | exactly the opportunities of that stage are listed |
| `Board.ByStageConcat` | src/components/crm/pipeline/PipelineBoard.tsx:100 | the stage filter distributes over concatenation, so list order is kept |
| `Board.OpenInStage` | src/components/crm/pipeline/PipelineBoard.tsx:104-106 | exactly the opportunities of that stage that are not lost |
| `Board.SumValues` | src/components/crm/pipeline/PipelineBoard.tsx:106 | the reduce of values is non-negative for non-negative values and 0 when every value is 0 |
| `Board.TotalValue` | src/components/crm/pipeline/PipelineBoard.tsx:103-107 | a stage's total is non-negative for non-negative values, and 0 when every opportunity there is lost |
| `Board.StagesPartitionBoard` | src/components/crm/pipeline/PipelineBoard.tsx:99-101 | the five columns hold every opportunity exactly once (multiset and count) |
| `Board.StageTotalsAddUp` | src/components/crm/pipeline/PipelineBoard.tsx:103-107 | the five column totals add up to the value of all opportunities that are not lost |
| `Board.MoveKeepsOpenValue` | src/components/crm/pipeline/PipelineBoard.tsx:79-107 | a move does not change the board's total open value |
| `Board.MarkAsLostDropsFromTotal` | src/components/crm/pipeline/PipelineBoard.tsx:89-107 | after markAsLost every column total is what it would be without that opportunity |
| `Board.MovedShowsUnderNewStage` | src/components/crm/pipeline/PipelineBoard.tsx:79-101 | after a move the opportunity is listed under the new stage with counter 0, and under no other stage |
| `Column.ActiveOpportunities` | src/components/crm/pipeline/PipelineColumn.tsx:34 | exactly the opportunities that are not lost |
| `Column.LostOpportunities` | src/components/crm/pipeline/PipelineColumn.tsx:35 | exactly the lost opportunities |
| `Column.SplitConcat` | src/components/crm/pipeline/PipelineColumn.tsx:34-35 | both filters distribute over concatenation, so each keeps input order |
| `Column.SplitPartitions` | src/components/crm/pipeline/PipelineColumn.tsx:34-35 | active and lost together hold each input opportunity exactly once |
| `Column.BadgeCount` | src/components/crm/pipeline/PipelineColumn.tsx:61 | the badge is at most the number of cards in the column |
| `Column.BadgeCountsActiveOnly` | src/components/crm/pipeline/PipelineColumn.tsx:61 | the badge is the count minus the lost ones, and equals the count exactly when nothing is lost |
| `Column.RenderedCards` | src/components/crm/pipeline/PipelineColumn.tsx:77-94 | the listed cards are a permutation of the column's opportunities |
| `Column.ActiveCardsComeFirst` | src/components/crm/pipeline/PipelineColumn.tsx:77-94 | no lost card is listed before an active one |
| `Column.RenderKeepsGroupedColumn` | src/components/crm/pipeline/PipelineColumn.tsx:77-94 | a column already in active-then-lost order is listed unchanged |
| `Column.ShowsEmptyState` | src/components/crm/pipeline/PipelineColumn.tsx:97 | the empty message shows exactly when both the active and the lost list are empty |
| `Column.EmptyStateCountsLostCards` | src/components/crm/pipeline/PipelineColumn.tsx:97 | the empty message appears exactly when no card at all is listed, lost ones included |
| `Column.HandleDrop` | src/components/crm/pipeline/PipelineColumn.tsx:41-45 | the drop forwards the dragged id with this column's stage |
| `Column.DropListsUnderColumn` | src/components/crm/pipeline/PipelineColumn.tsx:41-45 | carrying out the drop lists the opportunity in that column only, with counter 0 |
| `Column.TotalIsActiveSum` | src/components/crm/pipeline/PipelineBoard.tsx:103-107 | the column total is the sum of values of the column's active cards |
| `Card.ConfirmEnabled` | src/components/crm/pipeline/OpportunityCard.tsx:173 | the button is enabled while `lossReason.trim()` is non-empty; its meaning is proved in `Card.ConfirmEnabledIffNotBlank` |
| `Card.ConfirmEnabledIffNotBlank` | src/components/crm/pipeline/OpportunityCard.tsx:173 | the confirm button is enabled exactly when the reason has a non-whitespace character |
| `Card.LossDialog.constructor` | src/components/crm/pipeline/OpportunityCard.tsx:22-24 | the dialog starts closed with an empty reason |
| `Card.LossDialog.SetOpen` | src/components/crm/pipeline/OpportunityCard.tsx:139 | opening or closing keeps the typed reason |
| `Card.LossDialog.EditReason` | src/components/crm/pipeline/OpportunityCard.tsx:160 | typing replaces the reason and keeps the dialog's open state |
| `Card.LossDialog.HandleMarkAsLost` | src/components/crm/pipeline/OpportunityCard.tsx:41-47 | a request goes out iff the reason is not blank; it carries the raw, untrimmed reason; the dialog then closes and the reason is cleared; otherwise nothing changes |
| `Card.IsDraggable` | src/components/crm/pipeline/OpportunityCard.tsx:80 | a card is draggable when it is not lost and its status is em-andamento; related to the actions in `Card.DraggableOffersActions` |
| `Card.ShowsOutcomeActions` | src/components/crm/pipeline/OpportunityCard.tsx:128 | the win and loss buttons show only for status em-andamento; see `Card.StatuslessCardIsInert` and `Card.LostCardKeepsActions` |
| `Card.ShowsLossReason` | src/components/crm/pipeline/OpportunityCard.tsx:228 | the reason panel shows for a lost card with a non-empty reason; see `Card.ForwardedReasonIsShown` |
| `Card.StatusBadgeLabel` | src/components/crm/pipeline/OpportunityCard.tsx:49-71 | 'perdida' gives Perdida and 'ganha' gives Ganha; every other status, an absent one included, gives Em andamento |
| `Card.DraggableOffersActions` | src/components/crm/pipeline/OpportunityCard.tsx:80-128 | a draggable card offers the win/loss actions; one that offers them but is not draggable is lost |
| `Card.StatuslessCardIsInert` | src/components/crm/pipeline/OpportunityCard.tsx:80 | a card without status is never draggable, offers no actions, and shows Em andamento |
| `Card.LostCardKeepsActions` | src/components/crm/pipeline/PipelineBoard.tsx:89-97 | after the board's markAsLost an in-progress card stops being draggable but keeps its actions and its badge |
| `Card.ForwardedReasonIsShown` | src/components/crm/pipeline/OpportunityCard.tsx:228 | a reason the dialog lets through is shown once the board marks the opportunity lost |
| `Card.EmptyReasonIsNotShown` | src/components/crm/pipeline/OpportunityCard.tsx:228 | an empty reason would show no panel, and the dialog never sends one |
| `History.Insert` | src/components/crm/pipeline/InteractionHistory.tsx:41-43 | inserting into a newest-first list keeps it newest first and adds exactly that element |
| `History.SortNewestFirst` | src/components/crm/pipeline/InteractionHistory.tsx:41-43 | the sorted copy is newest first and a permutation of the input |
| `History.SortIsStable` | src/components/crm/pipeline/InteractionHistory.tsx:41-43 | interactions with the same date keep their input order |
| `History.SortKeepsNewestFirstLog` | src/components/crm/pipeline/InteractionHistory.tsx:41-43 | a log already newest first is shown unchanged |
| `History.ShowsEmptyState` | src/components/crm/pipeline/InteractionHistory.tsx:45 | the empty state is decided on the input list's length; see `History.EmptyStateIffNothingListed` |
| `History.EmptyStateIffNothingListed` | src/components/crm/pipeline/InteractionHistory.tsx:45-52 | the empty state is taken exactly when the sorted copy is empty |
| `History.IsScheduled` | src/components/crm/pipeline/InteractionHistory.tsx:58 | an interaction is highlighted when it has a schedule and is not completed |
| `History.IsPastDue` | src/components/crm/pipeline/InteractionHistory.tsx:59 | a highlighted interaction is flagged when its schedule lies before now |
| `History.ShowsCompleteButton` | src/components/crm/pipeline/InteractionHistory.tsx:95-109 | the button sits inside the schedule block, for an open interaction, when a handler was given; see `History.ButtonOnScheduledOnly` |
| `History.ButtonOnScheduledOnly` | src/components/crm/pipeline/InteractionHistory.tsx:58-109 | the complete button appears exactly for scheduled, open interactions when a handler exists; past-due implies scheduled and before now; completed ones get neither |
| `Detail.NewInteraction` | src/pages/OpportunityDetail.tsx:113-117 | type, description and scheduledFor are kept; id and date are overwritten; completed holds iff nothing is scheduled |
| `Detail.AddInteraction` | src/pages/OpportunityDetail.tsx:112-124 | exactly one interaction is appended at the end, and every other field of the opportunity is unchanged |
| `Detail.CompleteMatching` | src/pages/OpportunityDetail.tsx:129-133 | matching interactions are completed, the others kept, and the length is kept |
| `Detail.MarkInteractionCompleted` | src/pages/OpportunityDetail.tsx:126-135 | completed becomes true on the matching id and is never cleared; no other field changes |
| `Detail.MarkCompletedIsIdempotent` | src/pages/OpportunityDetail.tsx:126-135 | marking twice equals marking once, and an unknown id is a no-op |
| `Detail.MarkThenAddCommute` | src/pages/OpportunityDetail.tsx:112-135 | marking and adding commute when the new id differs |
| `Detail.PendingInteractions` | src/pages/OpportunityDetail.tsx:150-155 | exactly the scheduled, open interactions that are not past due |
| `Detail.OverdueInteractions` | src/pages/OpportunityDetail.tsx:157-162 | exactly the past-due interactions, the same predicate the history panel flags |
| `Detail.OpenScheduled` | src/pages/OpportunityDetail.tsx:150-162 | the scheduled, open interactions, as a reference list |
| `Detail.PendingAndOverdueSplitOpenScheduled` | src/pages/OpportunityDetail.tsx:150-162 | pending and overdue are disjoint and together hold each open scheduled interaction once |
| `Detail.ClosedOrUnscheduledInNeither` | src/pages/OpportunityDetail.tsx:150-162 | completed or unscheduled interactions are in neither list |
| `Detail.MarkedLeavesBothLists` | src/pages/OpportunityDetail.tsx:126-162 | after marking, nothing with that id is pending or overdue |
| `Detail.AddedScheduledIsPending` | src/pages/OpportunityDetail.tsx:112-155 | a new interaction scheduled at or after now joins the end of the pending list; any other joins nothing |
| `Timeline.FormatDuration` | src/components/crm/pipeline/StageHistoryTimeline.tsx:49-54 | the text is empty exactly for undefined and 0, and "1 dia" exactly for 1 |
| `Timeline.FormatDurationEmptyCases` | src/components/crm/pipeline/StageHistoryTimeline.tsx:49-54 | the text is empty exactly for undefined and 0, and 'menos de 1 dia' is never produced |
| `Timeline.FormatDurationInjective` | src/components/crm/pipeline/StageHistoryTimeline.tsx:52-53 | different non-zero counts give different texts |
| `Timeline.IsCompleted` | src/components/crm/pipeline/StageHistoryTimeline.tsx:79 | an entry is completed exactly when `leftAt` is neither undefined nor the empty string |
| `Timeline.IsCurrentStage` | src/components/crm/pipeline/StageHistoryTimeline.tsx:78 | an entry is current when it is of the current stage and not completed; see `Timeline.CompletedAndCurrentExclusive` |
| `Timeline.CompletedAndCurrentExclusive` | src/components/crm/pipeline/StageHistoryTimeline.tsx:78-79 | no entry is both completed and current; an entry that is neither is an open stay in another stage |
| `Timeline.DaysSince` | src/components/crm/pipeline/StageHistoryTimeline.tsx:177-179 | the whole days elapsed, rounded down, also for negative spans |
| `Timeline.TotalDaysFrom` | src/components/crm/pipeline/StageHistoryTimeline.tsx:172-183 | continuing the reduce from `sum` never goes below `sum` when no entry contributes a negative count |
| `Timeline.TotalDays` | src/components/crm/pipeline/StageHistoryTimeline.tsx:172-183 | the total is 0 for no entries, and non-negative when no entry contributes a negative count |
| `Timeline.TotalDuration` | src/components/crm/pipeline/StageHistoryTimeline.tsx:170-185 | "Tempo total" is empty exactly when the total is 0, so always for an empty history |
| `Timeline.TotalDaysIsSum` | src/components/crm/pipeline/StageHistoryTimeline.tsx:172-183 | the reduce equals the sum of each entry's contribution |
| `Timeline.TotalDaysConcat` | src/components/crm/pipeline/StageHistoryTimeline.tsx:172-183 | the total is additive over concatenated histories |
| `Timeline.RecordedDaysIgnoreClock` | src/components/crm/pipeline/StageHistoryTimeline.tsx:173-174 | with every daysInStage recorded, the total does not depend on the clock or the current stage |
| `Timeline.CurrentEntryCountsElapsedDays` | src/components/crm/pipeline/StageHistoryTimeline.tsx:175-180 | an unrecorded entry of the current stage counts the elapsed days, one more per day of clock |
| `Accounts.NewAccount` | src/components/crm/accounts/AccountsPage.tsx:30-35 | the submitted fields are copied, the id is the decimal stamp, and createdAt is the 'T'-free date part |
| `Accounts.AddAccount` | src/components/crm/accounts/AccountsPage.tsx:30-37 | exactly one account is appended; the stored ones are kept in order |
| `Accounts.AccountCreatedOnDate` | src/components/crm/accounts/AccountsPage.tsx:34 | for "date T time", createdAt is the date |
| `Accounts.AddAccountMayDuplicateId` | src/components/crm/accounts/AccountsPage.tsx:30-36 | without a uniqueness check, a colliding stamp leaves two accounts with one id |
| `Contacts.NewContact` | src/components/crm/contacts/ContactsPage.tsx:53-57 | every submitted field, optional ones included, is copied; id from the stamp; date-only createdAt |
| `Contacts.AddContact` | src/components/crm/contacts/ContactsPage.tsx:52-59 | exactly one contact is appended; earlier ones are kept in order |
| `Contacts.FindAccount` | src/components/crm/contacts/ContactsPage.tsx:62 | `find` gives the first account with that id, or none exactly when no id matches |
| `Contacts.GetAccountName` | src/components/crm/contacts/ContactsPage.tsx:61-63 | the shown name is never empty |
| `Contacts.FallbackCases` | src/components/crm/contacts/ContactsPage.tsx:62 | the fallback shows exactly when no account matches or its name is empty |
| `Contacts.AddedAccountIsNamed` | src/components/crm/contacts/ContactsPage.tsx:61-63 | an account appended to the looked-up list, with a fresh id and a name, is found by its id, and earlier lookups are unchanged |
| `Contacts.FindAccountAppend` | src/components/crm/contacts/ContactsPage.tsx:62 | appending an account changes a lookup only when it was a miss |
| `Users.NewUser` | src/components/crm/users/UsersPage.tsx:39-43 | name, email, role and department are copied, with the id from the stamp and the full ISO timestamp |
| `Users.AddUser` | src/components/crm/users/UsersPage.tsx:38-45 | exactly one user is appended; earlier users are kept in order |
| `Users.UserKeepsTimeOfDay` | src/components/crm/users/UsersPage.tsx:42 | a user's createdAt keeps the time of day, unlike the date part accounts store |
| `Users.RoleBadgeVariant` | src/components/crm/users/UsersPage.tsx:47-49 | the variant is destructive iff the role is admin |
| `Users.RoleLabel` | src/components/crm/users/UsersPage.tsx:51-53 | the label is Administrador iff admin, and Usuário iff user |
| `Users.LabelAndVariantAgree` | src/components/crm/users/UsersPage.tsx:47-53 | the variant is destructive exactly when the label is Administrador, and the label determines the role |
| `Properties.FormatAddress` | src/components/crm/properties/PropertiesPage.tsx:115-117 | the line holds street, number, neighbourhood, city and state plus at least the 8 separator characters; its frame is proved in `Properties.FormatAddressFrame` |
| `Properties.ComplementPart` | src/components/crm/properties/PropertiesPage.tsx:116 | the complement contributes nothing exactly when it is absent or empty |
| `Properties.FormatAddressFrame` | src/components/crm/properties/PropertiesPage.tsx:115-117 | the line starts with "street, number" and ends with "/state"; the zip code plays no part |
| `Properties.ComplementCases` | src/components/crm/properties/PropertiesPage.tsx:115-117 | an empty complement equals an absent one; a non-empty one sits between the number and " - "; the full texts with and without it |
| `Properties.ComplementIsRecoverable` | src/components/crm/properties/PropertiesPage.tsx:115-117 | with the other parts fixed, the line determines the complement piece |

## Left out

- **Rendering.** React rendering, markup, icons, toasts and dialog plumbing are not modelled. The model keeps only the conditions the markup tests and the data the handlers forward.
- **Locale formatting.** `Intl.NumberFormat` currency, `toLocaleDateString`, and date-fns `format`/`formatDistanceToNow` are calls into libraries outside this code. This includes the current-stage duration text of the timeline.
- **Clocks and ids.** `Date.now()`, `new Date()` and `toISOString()` become parameters. Date parsing is not modelled: interaction dates and stage-entry instants are taken as the milliseconds they denote. An invalid date, which makes JavaScript compare with NaN, is not represented.
- **Money is integral.** Monetary values are integers, so sums are exact; floating-point rounding is not modelled.
- **`moveStage` aliasing.** The shallow array copy in `moveStage` shares its stage objects with the old state, and the `forEach` writes `order` into those shared objects. `Stages.MoveStage` copies values, so it does not capture that the old list's objects are rewritten too. The old list is dropped right after, so no screen reads it.
- **No handlers for mark-as-won or stage-history entries.** No code implements mark-as-won, or the appending and closing of stage-history entries. The board never passes a mark-as-won handler.
- **Board records' missing `interactions`.** The model gives every opportunity an interaction list. On the board, the card passes the record's absent `interactions`, that is `undefined`, to the history panel (src/components/crm/pipeline/OpportunityCard.tsx:121), whose `[...interactions]` (src/components/crm/pipeline/InteractionHistory.tsx:41) throws a TypeError when that dialog renders; the model does not capture this crash.
- **Missing fields on the record.** The `Opportunity` record does not carry the detail page's `email`, `phone` and `stageHistory` fields; no modelled operation reads them. The timeline takes its entries as a separate list.
- **The "total de estágios" figure.** It is the length of the entry list and has no member of its own.
- **Form dialogs, dashboards and the auth hook.** Form validation lives in an outside schema library, the dashboard figures are hard-coded mock data, and the authentication hook is a fixed mock.
- **Users' stale-closure update.** `handleAddUser` builds on the rendered `users` array instead of the previous state. In a sequential model the two are the same.
- **`Stages.AddStage` mixes rendered and previous state.** `addStage` reads the rendered `stages.length` for `order` (src/components/crm/pipeline/StagesManagement.tsx:89) but appends to `prev` (:93). The model takes both from one list, so it does not capture two adds batched before a re-render getting the same order.
- **The contacts page's account list is fixed.** The contacts page keeps its own account list, initialised from mock data and never updated (src/components/crm/contacts/ContactsPage.tsx:50), so an account added on the accounts page never reaches its lookup. `Contacts.AddedAccountIsNamed` is about a list that does receive the account; it does not say the two pages share one.
- **`Stages.MoveAtEndsIsSkipped` is stated only for a last stage whose id is unique.** With a repeated id, `findIndex` finds the earlier copy and the move is not skipped.
- **Pending and overdue use a single `now`.** `Detail.PendingInteractions` and `Detail.OverdueInteractions` read the clock once; the source calls `new Date()` once per item. An item that falls due between those calls can be listed in neither (overdue is computed before pending); the model does not capture that.
- **`Users.RoleLabel` and `Users.RoleBadgeVariant` take the two declared roles.** The source takes any string; every value other than 'admin' behaves as 'user', which the model's `RegularUser` stands for.
