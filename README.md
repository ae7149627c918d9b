# Spa manager front end: client logic and mock store, in Dafny

This project models the record handling of the spa manager's React front end.
It covers the pages' data logic and the in-memory `ApiService` store.

- **Dashboard** (`dashboard.dfy`, module `Dashboard`):
  - payload and date normalisation and the cancellation test;
  - the month-to-date filter on `YYYY-MM-DD` keys;
  - the per-day chart, built by a loop over zeroed buckets;
  - the per-seller chart, built by a label map followed by a stable sort by count, highest first.
- **Mock store** (`api.dfy`, module `Api`): the class `ApiService` holds sales, leads, products and the inventory audit trail. Its methods change them in place:
  - `MoveStock` checks, moves stock and audits the move;
  - `CreateSale` sells one unit and then records the sale;
  - `CreateProduct` and `CreateLead` add records;
  - `UpdateLeadStatus` changes a lead's status.

  Each method is specified against pure functions (`PlanMove`, `Restock`, `SetLeadStatus`, …). Lemmas state what those functions guarantee.
- **Leads board** (`leads.dfy`): the four status columns and the forward and back transitions. Also the delete guard, the WhatsApp phone clean-up and the list after a delete.
- **Sales page** (`sales.dfy`): the search and the in-stock product list. Also form prefill, the submit guard and the CSV export.
- **Stock page** (`stocks.dfy`): the name/SKU search, the low-stock card and the inventory value. Also the red badge, the resulting-stock preview and the move request.
- **User settings** (`users_settings.dfy`): reading API errors, the save button's ordered validation and request building, deleted rows, and the edit prefill.
- **Roles and permissions** (`roles_permissions.dfy`): the selected role, its permission-id set and the checkbox toggle.
- **Appointments** (`appointments.dfy`): the 35-cell month grid, the appointments listed per cell and the sidebar.
- **Shared pieces**:
  - `records.dfy` holds the record shapes of `src/types.ts` as the code reads them.
  - `text.dfy` holds the JavaScript string operations the pages use.
  - `seqs.dfy` holds order-keeping filter, find, take and de-duplication.
  - `wrappers.dfy` holds `Option` and `Result`.

Modelling conventions:
- JavaScript `Set` and `Map` are lists of distinct keys in insertion order.
- `Array.prototype.sort` is stable, so it is modelled as an insertion sort.
- `toLowerCase` lowers the ASCII letters.
- `Number(s)` reads an optionally signed decimal integer; `None` stands for `NaN`.
- Money, stock and quantities are integers.
- The clock, random ids and date parsing are parameters. Examples: `now`, `txId`, `createdAt`, `parse`, `dayOf`.

The code reads a product's `price`, while `src/types.ts` declares `sales_price`. The model follows the code.

## Model

| member | source | states |
|---|---|---|
| Dashboard.NormalizeArrayCases | src/pages/Dashboard.tsx:58-65 | an array payload is returned as is; an object whose `data` is an array gives that array; anything else gives the empty list; normalising the result again changes nothing |
| Dashboard.NormalizeDate | src/pages/Dashboard.tsx:67-71 | the result is a prefix of the input of at most 10 characters: exactly the first ten characters when the input has ten or more, the input itself when it has at most ten, and empty exactly when the input is missing or empty |
| Dashboard.NormalizeDateIdempotent | src/pages/Dashboard.tsx:67-71 | normalising a normalised date changes nothing |
| Dashboard.CancelledIgnoresCase | src/pages/Dashboard.tsx:73-82 | every status whose letters lower-case to "cancelled" or "canceled", in any mix of cases, cancels a sale; two statuses equal up to case get the same verdict; without a deletion marker, a status that is neither word in any case, or no status, leaves the sale active |
| Dashboard.InWindowInclusive | src/pages/Dashboard.tsx:163 | the date window test keeps a date iff start ≤ date ≤ end in string order, both ends included |
| Dashboard.MtdSales | src/pages/Dashboard.tsx:152-178 | every kept sale is active, has a non-empty date inside the window and matches the branch; every sale of the input passing those tests is kept; never more sales than the input |
| Dashboard.MtdSalesAppend | src/pages/Dashboard.tsx:158-177 | the filter decides sale by sale, so it keeps the order of the input |
| Dashboard.CancelledSaleNotCounted | src/pages/Dashboard.tsx:174-186 | inserting a cancelled sale anywhere in the list leaves the sales count card unchanged |
| Dashboard.SoldLeads | src/pages/Dashboard.tsx:140-144 | the first ten sold leads of the recent leads in list order (all of them when fewer; none when the list is missing): a prefix of the sold leads of length min(10, their number), each sold and from the recent leads |
| Dashboard.SoldLeadsAppend | src/pages/Dashboard.tsx:140-144 | the sold leads are taken from the front: once the first part holds ten, the rest changes nothing; with at most ten in all, those of the second part follow those of the first |
| Dashboard.InitDayBuckets | src/pages/Dashboard.tsx:197-201 | one bucket per day 1..N labelled "1".."N" with count 0 |
| Dashboard.IndexDayBuckets | src/pages/Dashboard.tsx:203-204 | every bucket label maps to its own position and every key of the map is the label of the bucket it points to |
| Dashboard.BucketIndex | src/pages/Dashboard.tsx:206-213 | a sale reaches a bucket iff its date parses into the current year and month on a day within 1..N, and then the bucket is that day's |
| Dashboard.CountOneMore | src/pages/Dashboard.tsx:214 | incrementing the bucket of one more sale keeps every bucket equal to its day's count and the bucket total equal to the counted sales |
| Dashboard.CountSale | src/pages/Dashboard.tsx:206-215 | one pass of the callback keeps the labels "1".."N" and turns buckets that count a list of sales into buckets that count the list plus this sale |
| Dashboard.SalesByDayChartData | src/pages/Dashboard.tsx:191-218 | the result is the chart of days 1..today: exactly today's-day-of-month buckets labelled "1".."N" in order; bucket k holds the number of sales dated on day k+1; the counts sum to at most the number of month-to-date sales |
| Dashboard.SellerLabel | src/pages/Dashboard.tsx:226-233 | the label is never empty and is the embedded seller's name when that is present |
| Dashboard.SellerLabelFallbacks | src/pages/Dashboard.tsx:226-233 | without a seller name the label is `seller_name`, else "Seller {id}" when a seller id exists, else "Sin vendedora" |
| Dashboard.CountByLabel | src/pages/Dashboard.tsx:235-238 | the map's keys are the labels in first-seen order, each mapped to the number of sales carrying it |
| Dashboard.Tally | src/pages/Dashboard.tsx:241-242 | one entry per listed name, in that order, with that name's number of occurrences |
| Dashboard.TallySum | src/pages/Dashboard.tsx:235-238 | when the names are distinct and cover every label, the counts add up to the number of labels |
| Dashboard.SortPermutes | src/pages/Dashboard.tsx:243 | the sort returns the same entries |
| Dashboard.SortSorted | src/pages/Dashboard.tsx:243 | the sorted entries have non-increasing counts |
| Dashboard.SortStable | src/pages/Dashboard.tsx:243 | the entries with equal count keep their first-seen order |
| Dashboard.SortSum | src/pages/Dashboard.tsx:243 | the sort keeps the sum of the counts |
| Dashboard.ChartCountsLabels | src/pages/Dashboard.tsx:235-243 | each bar's count is the number of month-to-date sales whose label is the bar's name |
| Dashboard.ChartCoversSale | src/pages/Dashboard.tsx:235-243 | every month-to-date sale's label has a bar |
| Dashboard.SellerChartFacts | src/pages/Dashboard.tsx:235-243 | the seller chart is sorted by count, highest first, and its counts sum to the number of month-to-date sales |
| Dashboard.SalesBySellerChartData | src/pages/Dashboard.tsx:223-244 | the chart is the first-seen label tally sorted stably by count, highest first, and its counts sum to the number of month-to-date sales |
| Records.LowStockCount | src/services/api.ts:30 | the number of flagged products: at most the number of products, zero exactly when no product is flagged, and all of them exactly when every product is |
| Records.LowStockCountAppend | src/services/api.ts:30 | the count over two lists is the sum of their counts |
| Api.SeedProducts | src/services/api.ts:14-18 | the three seed products start with low-stock flags that agree with their stock |
| Api.PlanMove | src/services/api.ts:42-51 | "Product not found" iff no product has the id; "Insufficient stock" iff the first such product is being sold more than its stock; otherwise the first product with the id, its stock before, and before + quantity for a purchase or before − quantity for a sale |
| Api.Restock | src/services/api.ts:49-50 | the moved product takes the new stock and the flag `stock <= min_stock`; all its other fields and every other product are unchanged |
| Api.MoveKeepsLowFlags | src/services/api.ts:49-50 | a movement keeps every product's low-stock flag in agreement with its stock |
| Api.SaleKeepsStockNonNegative | src/services/api.ts:46-49 | a successful sale leaves no stock negative when none was |
| Api.PurchaseThenSaleRestores | src/services/api.ts:42-51 | buying a quantity and then selling it restores the product list, when flags agree and stock is not negative |
| Api.MoveRecordAudited | src/services/api.ts:52-61 | the transaction a movement records has stock before and after related by the movement, and no sale exceeding the stock before |
| Api.DashboardStats | src/services/api.ts:23-32 | the total is the sum of the sale amounts (not negative when no amount is); the sales count is the number of sales; the low-stock count is the number of flagged products; the recent leads are the first five leads, or all of them when there are fewer |
| Api.RecordedSaleStats | src/services/api.ts:24-29 | a sale added in front raises the total by its amount and the count by one |
| Api.LowStockCountAfterUpdate | src/services/api.ts:30 | replacing one product changes the low-stock count only by the change of that product's flag |
| Api.NewLead | src/services/api.ts:81-87 | the new lead takes its id, status "new" and creation time from the store unless the given fields carry them, in which case those win; name, phone, email, branch, source and message are the given ones |
| Api.SetLeadStatus | src/services/api.ts:92-98 | "Lead not found" iff no lead has the id; otherwise the first lead with the id takes the status and every other lead is unchanged |
| Api.SetLeadStatusUndo | src/services/api.ts:92-98 | setting the lead back to its former status restores the list |
| Api.ApiService.constructor | src/services/api.ts:5-19 | the store starts from the given sales and leads, the seed products and no transactions |
| Api.ApiService.GetDashboardStats | src/services/api.ts:23-32 | the statistics of the current sales, leads and products |
| Api.ApiService.CreateProduct | src/services/api.ts:36-40 | appends a product with the given fields, stock 0 and the low-stock flag set; nothing else changes |
| Api.ApiService.MoveStock | src/services/api.ts:42-63 | on an error nothing changes; otherwise the product is restocked with a recomputed flag and exactly one transaction is put first; the audit trail stays consistent |
| Api.ApiService.CreateSale | src/services/api.ts:73-79 | a sale with a product first sells one unit of it and is not recorded when that fails; on success the stock movement is applied and its one-unit sale transaction goes first in the trail; the sale goes first in the sales |
| Api.ApiService.CreateLead | src/services/api.ts:81-90 | the new lead goes first; nothing else changes |
| Api.ApiService.UpdateLeadStatus | src/services/api.ts:92-99 | "Lead not found" and no change, or the first lead with the id takes the status and a copy of it is returned |
| Leads.StatusKeys | src/pages/Leads.tsx:27 | four distinct column keys in the order new, contacted, sold, discarded |
| Leads.EveryStatusHasColumn | src/pages/Leads.tsx:20-27 | every status has a column |
| Leads.StatusTitlesDistinct | src/pages/Leads.tsx:20-25 | distinct statuses have distinct titles |
| Leads.Prev | src/pages/Leads.tsx:29-34 | a lead has a previous status iff it is not new |
| Leads.ForwardActions | src/pages/Leads.tsx:122-146 | new offers contacted; contacted offers sold and discarded; sold and discarded offer nothing |
| Leads.BackEdgesReverseForward | src/pages/Leads.tsx:29-34 | the back arrow leads from t to s iff t is a forward action of s |
| Leads.BackChainEndsAtNew | src/pages/Leads.tsx:29-34 | no status is its own predecessor, and two steps back reach new, which has none |
| Leads.DeleteClick | src/pages/Leads.tsx:149-152 | the delete handler receives the lead's id iff the lead is discarded |
| Leads.FormatWhatsAppPhone | src/pages/Leads.tsx:54-56 | the result holds no whitespace, parentheses or dashes, and every other character of the phone survives |
| Leads.FormatWhatsAppPhoneIdempotent | src/pages/Leads.tsx:54-56 | cleaning a cleaned number changes nothing |
| Leads.FormatWhatsAppPhoneKeepsPlain | src/pages/Leads.tsx:54-56 | a number without separators is unchanged |
| Leads.FormatWhatsAppPhoneAppend | src/pages/Leads.tsx:54-56 | cleaning works piece by piece, so the kept characters keep their order |
| Leads.Column | src/pages/Leads.tsx:247 | a column holds exactly the leads of its status, each at most as often as in the list |
| Leads.ColumnAppend | src/pages/Leads.tsx:247 | a column takes the leads one by one, so it keeps their order |
| Leads.ColumnsPartition | src/pages/Leads.tsx:246-261 | the four column badges add up to the number of leads |
| Leads.LeadInOneColumn | src/pages/Leads.tsx:246-247 | a lead appears in a column iff it has that column's status |
| Leads.RemoveLead | src/pages/Leads.tsx:218 | no remaining lead has the id and every lead with another id remains |
| Leads.RemoveLeadCount | src/pages/Leads.tsx:218 | exactly the leads with the id are removed |
| Leads.RemoveLeadIdempotent | src/pages/Leads.tsx:218 | removing the same id twice is removing it once |
| Leads.RemoveLeadAppend | src/pages/Leads.tsx:218 | removal keeps the order of the remaining leads |
| SalesPage.FilteredSales | src/pages/Sales.tsx:100-103 | exactly the sales whose lower-cased client name or service contains the lower-cased term |
| SalesPage.FilteredSalesAppend | src/pages/Sales.tsx:100-103 | the search decides sale by sale, so it keeps the order of the list |
| SalesPage.FilteredSalesEmptyTerm | src/pages/Sales.tsx:100-103 | an empty search keeps every sale in order |
| SalesPage.FilteredSalesIgnoresCase | src/pages/Sales.tsx:100-103 | searching the lower-cased term gives the same list |
| SalesPage.AvailableProducts | src/pages/Sales.tsx:106 | exactly the products with stock above zero, each at most as often as in the list |
| SalesPage.AvailableProductsAppend | src/pages/Sales.tsx:106 | the products are checked one by one, so their order is kept |
| SalesPage.AvailableProductsAllOrNone | src/pages/Sales.tsx:106 | with stock everywhere every product is offered in list order; with none in stock none is |
| SalesPage.HandleProductSelect | src/pages/Sales.tsx:65-75 | an unknown id leaves the form as it is; a known id fills the form from the first product with that id: the product id, the service as its name and the amount as its price in text, and nothing else |
| SalesPage.SelectedAmountParses | src/pages/Sales.tsx:72 | the amount written by a selection reads back as the product's price |
| SalesPage.SelectingEnablesSubmit | src/pages/Sales.tsx:285 | choosing a known product with a non-empty id enables "Confirmar Venta" |
| SalesPage.DailyLogLabels | src/config/excelFields.ts:3-12 | eight non-empty labels without commas or line breaks |
| SalesPage.CsvHeader | src/pages/Sales.tsx:78 | the header splits on commas back into the eight labels, in order, and holds no line break |
| SalesPage.BranchCell | src/pages/Sales.tsx:82 | the name of the first branch with the sale's branch id when that name is not empty, otherwise the id (also when no branch has it); never empty when the id is not |
| SalesPage.BranchCellFirstMatchWins | src/pages/Sales.tsx:82 | once a branch with the id is listed, branches after it do not change the cell |
| SalesPage.BranchCellSkipsOthers | src/pages/Sales.tsx:82 | branches without the id listed in front do not change the cell |
| SalesPage.CsvRowFields | src/pages/Sales.tsx:79-88 | a row splits on commas back into its eight cells when none holds a comma, and its amount cell reads back as the amount |
| SalesPage.CsvContent | src/pages/Sales.tsx:90 | the export starts with the CSV data-URI prefix |
| SalesPage.CsvLines | src/pages/Sales.tsx:79-90 | read line by line, the export is the header then one row per sale in list order (one empty line when there are no sales) |
| StocksPage.FilteredProducts | src/pages/Stocks.tsx:37-40 | exactly the products whose lower-cased name, or SKU when there is one, contains the lower-cased term |
| StocksPage.FilteredProductsAppend | src/pages/Stocks.tsx:37-40 | the search decides product by product, so it keeps the order of the list |
| StocksPage.FilteredProductsEmptyTerm | src/pages/Stocks.tsx:37-40 | an empty search lists every product |
| StocksPage.NoSkuSearchesName | src/pages/Stocks.tsx:37-40 | a product without a SKU matches iff its name does |
| StocksPage.FilteredProductsIgnoresCase | src/pages/Stocks.tsx:37-40 | searching the lower-cased term gives the same list |
| StocksPage.LowStockCardCountsRedBadges | src/pages/Stocks.tsx:68 | when flags agree with stock, the "Stock Bajo" card counts the red badges |
| StocksPage.InventoryValueAppend | src/pages/Stocks.tsx:77 | the inventory value of two lists is the sum of their values |
| StocksPage.InventoryValueNonNegative | src/pages/Stocks.tsx:77 | with no negative price or stock the value is not negative |
| StocksPage.InventoryValueUpdate | src/pages/Stocks.tsx:77 | replacing a product changes the value by the difference of the two items |
| StocksPage.MoveChangesValue | src/pages/Stocks.tsx:77 | a stock movement changes the value by the price times the change in stock |
| StocksPage.PreviewStock | src/pages/Stocks.tsx:183 | the preview is stock plus quantity for a purchase, stock minus quantity for a sale |
| StocksPage.PreviewMatchesMove | src/pages/Stocks.tsx:183 | the preview is the stock the store sets when the move goes through |
| StocksPage.HandleStockMove | src/pages/Stocks.tsx:24-29 | no request without a selected product; otherwise the product's id, the type and the quantity |
| UsersSettings.GetErrorMessage | src/settings/UsersSettings.tsx:18-30 | 422 with errors: the first message of the first field, else "Validation failed."; otherwise the error's message, else "Ocurrió un error." |
| UsersSettings.ErrorMessageNeverBlank | src/settings/UsersSettings.tsx:18-30 | the message is never blank when the field messages and the error's message are not |
| UsersSettings.OnlyUnprocessableReadsFields | src/settings/UsersSettings.tsx:23-29 | a status other than 422 reports the error's message |
| UsersSettings.FirstInvalid | src/settings/UsersSettings.tsx:99-110 | the first failing check in order: blank name or email, then a blank password when creating, then no role; none iff all pass |
| UsersSettings.PutPayloadOf | src/settings/UsersSettings.tsx:112-123 | trimmed name and email, numeric role id, branch id null when empty else numeric, and the password with an equal confirmation only when it is not blank |
| UsersSettings.PostBodyOf | src/settings/UsersSettings.tsx:130-137 | the fields as typed, the confirmation equal to the password, empty ids sent as null |
| UsersSettings.SaveRequest | src/settings/UsersSettings.tsx:99-137 | an error iff a check fails, carrying the message of the first failed check; a PUT of the edited user iff editing and valid; a POST with a role and a non-blank password otherwise |
| UsersSettings.Save | src/settings/UsersSettings.tsx:95-137 | the step-by-step save with early returns and the mutated payload produces exactly the request described by `SaveRequest` |
| UsersSettings.RowActions | src/settings/UsersSettings.tsx:315-336 | a row has no edit or delete button iff it is deleted |
| UsersSettings.RefSelectValue | src/settings/UsersSettings.tsx:347-350 | empty exactly when the reference is missing or its id is 0 |
| UsersSettings.EditPrefill | src/settings/UsersSettings.tsx:341-351 | name and email copied, both password fields cleared, role and branch as their ids in text |
| UsersSettings.EditThenSaveKeepsUser | src/settings/UsersSettings.tsx:341-351 | saving an untouched edit form sends the user's own role and branch ids back and no password |
| RolesPermissions.SelectedRole | src/settings/RolesPermissionsSettings.tsx:12-15 | none iff no role's id as text is the selected value; otherwise the first such role |
| RolesPermissions.SelectingOptionFindsRole | src/settings/RolesPermissionsSettings.tsx:12-15 | choosing a role's option selects a role with that id; the empty option selects none |
| RolesPermissions.PermIds | src/settings/RolesPermissionsSettings.tsx:19 | the ids of the role's permissions in order, none without a role or a list |
| RolesPermissions.SelectedPermIds | src/settings/RolesPermissionsSettings.tsx:17-21 | the distinct permission ids of the selected role in first-seen order, and exactly those |
| RolesPermissions.ToggleSet | src/settings/RolesPermissionsSettings.tsx:40-42 | removes the id if present, adds it otherwise, every other id unchanged |
| RolesPermissions.ToggleKeepsDistinct | src/settings/RolesPermissionsSettings.tsx:40-42 | a toggled set holds each id once |
| RolesPermissions.ToggleTwiceRestores | src/settings/RolesPermissionsSettings.tsx:40-42 | toggling twice restores the set |
| RolesPermissions.TogglePermission | src/settings/RolesPermissionsSettings.tsx:36-46 | no request iff no role is selected; otherwise the role's id and the toggled set, in which the checkbox's state is flipped |
| AppointmentsPage.WeekdayHeaders | src/pages/Appointments.tsx:21 | seven distinct headers from "Sun" to "Sat" |
| AppointmentsPage.DayNumber | src/pages/Appointments.tsx:57 | every cell shows a day in 1..31, cell i < 31 showing i+1 |
| AppointmentsPage.DayNumbers | src/pages/Appointments.tsx:56-57 | exactly 35 cells |
| AppointmentsPage.DayNumbersCoverMonth | src/pages/Appointments.tsx:56-57 | cells 0..30 show days 1..31; two cells share a day only 31 apart, for days 1 to 4 |
| AppointmentsPage.CellAppointments | src/pages/Appointments.tsx:66-67 | exactly the appointments on the cell's day of the month |
| AppointmentsPage.CellAppointmentsAppend | src/pages/Appointments.tsx:66-67 | a cell takes the appointments one by one, so it keeps their order |
| AppointmentsPage.HasAppIffListed | src/pages/Appointments.tsx:58-64 | a cell shows a list iff its list is non-empty |
| AppointmentsPage.AppointmentListedOnItsDay | src/pages/Appointments.tsx:58-67 | each appointment on a valid day is listed in that day's first cell |
| AppointmentsPage.UnplacedAppointmentInNoCell | src/pages/Appointments.tsx:58-67 | an appointment with an invalid date is in no cell |
| AppointmentsPage.RepeatedCellsAgree | src/pages/Appointments.tsx:56-67 | the four repeated cells list the same appointments as days 1 to 4 |
| AppointmentsPage.Sidebar | src/pages/Appointments.tsx:90 | the first three appointments, or all of them when fewer |
| AppointmentsPage.EmptyMessageIffEmptySidebar | src/pages/Appointments.tsx:99 | "No sessions today." shows iff the sidebar is empty |

## Left out

- Rendering is not modelled: JSX, styling, charts, icons and the `StatCard` component.
- Async fetching is not modelled: `useEffect`, `Promise.all` and the `cancelled` flag. Fetched lists are inputs.
- `window.confirm`, `alert`, `console` and the CSV download are left out. The download covers `encodeURI`, the link element and the file name with today's date. The model stops at the CSV text.
- The clock is a parameter. The month-to-date window strings (`toISODate` of the first of the month and of now) are inputs. The time-zone shift of `toISOString` is therefore not captured.
- `new Date(...)` parsing and `getDate` are parameters (`parse`, `dayOf`), so time-zone effects on the day of the month are whatever those functions say.
- Random ids and timestamps (`Math.random`, `new Date().toISOString()`) are passed in as `id`, `txId` and `createdAt`.
- Floating-point money is left out. `profit = totalSales * 0.7` is not modelled. Prices, amounts, stock and quantities are integers, so `parseFloat` and `toLocaleString` are outside the model.
- Lower-casing covers ASCII letters only. Other Unicode case mappings are not modelled.
- Strings are sequences of Unicode code points, while JavaScript strings are sequences of UTF-16 code units. For characters above U+FFFF, `length`, `slice(0, 10)` and `<` on strings therefore differ from the model.
- `Number(...)` reads optionally signed decimal integers only. These forms give `NaN` in the model, while JavaScript reads them as numbers:
  - surrounding spaces;
  - a leading `+`;
  - decimals, exponents and hex.
- `Object.keys` order of the validation errors is the order of the list given to `GetErrorMessage`. Integer-like keys coming first is not modelled.
- A first error list holding `null` as its first message is not modelled. The model's messages are strings.
- The loosely typed inputs have fixed types:
  - a sale's date, status and ids are optional strings;
  - the `is_deleted` flags are optional booleans;
  - other JavaScript values (numbers as dates, non-boolean truthy flags) are not modelled.
- Api.ApiService.GetDashboardStats: its `branchId` argument is ignored, as the source ignores it.
- The store's other collections (branches, users, refunds, expenses, appointments) have only getters. Those collections and the getters are left out.
- Arrays returned by the store's getters are the store's own arrays. The model returns values, so aliasing through them is not captured.
- Api.ApiService.CreateProduct: `Partial<Product>` is reduced to `ProductDraft` (name, SKU, price, minimum stock). The flag agreement is kept only when the minimum is not negative.
- API calls the pages make, whose definitions lie outside the store, become returned requests. These are `api.get/put/post/delete`, `deleteLead`, `listSales` and the like. `UsersSettings.Save` returns the PUT or POST it would send, and `RolesPermissions.TogglePermission` returns its PUT. Their network effects and the reloads afterwards are not modelled.
- SalesPage.CsvLines: the source does not quote CSV cells, so the round trip is stated only for cells without line breaks.
- SalesPage.CsvRowFields: likewise, the round trip of a row is stated only for cells without commas.
- Api.NewLead: a field of the spread object that is present with the value `undefined` overrides the default in JavaScript. Here a missing field is `None`, and `None` takes the default, so this case is not modelled.
- Leads.RemoveLead: models the local list update after a successful delete. The server call and its failure path are not modelled.
- The login, admin, refunds, expenses, settings-tab and branch pages are not modelled: they are routing, tab switching or plain tables. The same holds for the lead modal, the entry files and `src/services/mockData.ts`.
