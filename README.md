# Project and issue tracker with a shop cart: a Dafny model

This project models the custom logic of a small web application. The
application tracks projects and their issues, and it also has a session-keyed
shopping cart with order placement. The web framework, its database layer,
forms, sessions and templates are treated as given. The model states in Dafny
what the application's own code does with them:

- **Cart and orders** (`order_views.dfy`, module `OrderViews`). A `Shop` class
  holds product stock (`map<ProductId, int>`), cart lines keyed by session and
  product (`map<CartKey, int>`), orders and order lines. Its methods are the
  cart views (add, remove one, remove the line) and order placement. Each
  method's `ensures` ties the new state to a pure function of the old state:
  `Added`, `RemovedOne`, `RemovedLine`, `StockAfterOrder` and
  `CartAfterOrder`. The properties are proved about those functions. The loop
  that walks the session's cart is the method `SettleCart`. It is proved
  against `StockAfterOrder` and `PlacedLines`.
- **Projects** (`project_views.dfy`, module `ProjectViews`). The listing,
  detail and update queries are functions over a sequence of `Project` rows:
  the soft-delete filter, the two-field case-insensitive search and ordering
  by start date (an insertion sort, proved sorted and a permutation).
  `PaginateComments` models the empty-issues branch of the detail page. The
  `ProjectTable` class does the bulk soft delete (a loop) and the single soft
  delete in place. Both are proved equal to `MarkDeleted`, whose lemmas give
  idempotence, "unknown ids are ignored" and "deleted rows disappear from the
  queries".
- **Issues** (`issue_views.dfy`, module `IssueViews`). The issue list search is
  `SearchIssues`. `IssueTable.CreateIssue` attaches the new issue to the
  project named in the URL. It saves the issue row first and the type links
  after.
- **Records** (`models.dfy`, module `Models`). This module has the Project,
  Issue, Status and Type datatypes, the two choice lists with their defaults,
  and the field bounds of each record. It also has the form cleaning that
  turns a submission into a record, and `Project.__str__` with a parser that
  reads it back.
- **Validators** (`validate.dfy`, `accounts_forms.dfy`). These are `title`,
  `null` and the sign-up form's name check.
- **Support** (`text.dfy`, `seqs.dfy`, `forms.dfy`, `wrappers.dfy`). These
  model ASCII `isupper`, lower-casing, Python's `in` on strings,
  `str.strip()` and `str(int)`. They also model the order-keeping query
  filter and the framework's text-field cleaning (strip, required, maximum
  length, no NUL character).

Decisions made while modelling:

- **The cart bound across sessions.** Each cart operation keeps every line
  within its product's stock (`Added`, `RemovalsKeepWithinStock`). Order
  placement does not keep the bound for other sessions' lines. When one
  session buys up a product, another session's line for that product can
  exceed what is left. `OrderCanBreakOtherSessionsBound` gives a concrete
  case.
- **Order lines and product rows.** The source accumulates product objects in
  a list and writes their amounts in one batch. The model updates the stock
  map as it walks the lines. The two agree because a session holds at most
  one line per product.
- **Which projects each lookup sees.** The single soft delete looks a project
  up among all projects, deleted ones included. Issue creation does the same,
  so an issue can be added under a soft-deleted project. Both are modelled as
  written.

## Model

| member | source | states |
|---|---|---|
| `Validate.Title` | source/webapp/validate.py:4-6 | rejects exactly when the first character is not upper case; needs a non-empty string |
| `Validate.TitleOnlyFirstChar` | source/webapp/validate.py:5 | two strings with the same first character get the same verdict |
| `Validate.TitleRejectsNonLetterStart` | source/webapp/validate.py:5 | a string starting with a digit, space or punctuation is rejected |
| `Validate.TitleExamples` | source/webapp/validate.py:4-6 | "bad report" is rejected and "Bad report" accepted |
| `Validate.Null` | source/webapp/validate.py:9-11 | rejects exactly when some position holds the character '0' |
| `Validate.NullAcceptsWithoutZero` | source/webapp/validate.py:10 | any string without '0' is accepted |
| `Validate.NullExamples` | source/webapp/validate.py:9-11 | the empty string is accepted; a string containing '0' is rejected |
| `Text.SubstringIffOccurs` | source/webapp/validate.py:10 | Python's substring test holds exactly when the needle occurs at some index |
| `Text.CharInIff` | source/webapp/validate.py:10 | a one-character needle is found exactly when some position holds it |
| `AccountsForms.CleanSignUp` | source/accounts/forms.py:11-19 | fails exactly when first and last name are both missing or empty; on success returns the cleaned data unchanged |
| `AccountsForms.AcceptsWithFirstName` | source/accounts/forms.py:16 | a non-empty first name is accepted whatever the last name |
| `AccountsForms.AcceptsWithLastName` | source/accounts/forms.py:16 | a non-empty last name is accepted whatever the first name |
| `Models.ParseStatus` | source/webapp/models.py:5 | accepts exactly the three stored status values and inverts `StatusCode` on them |
| `Models.StatusCodeRoundTrip` | source/webapp/models.py:5 | every status choice is stored as one of the listed values and reads back as itself |
| `Models.ParseType` | source/webapp/models.py:6 | accepts exactly the three stored type values and inverts `TypeCode` on them |
| `Models.TypeCodeRoundTrip` | source/webapp/models.py:6 | every type choice is stored as one of the listed values and reads back as itself |
| `Models.CreateStatus` | source/webapp/models.py:40-42 | states the declared choice set and default of the status field: a Status row is built exactly from a listed value or from no value, and no value means "New" |
| `Models.CreateType` | source/webapp/models.py:52-54 | states the declared choice set and default of the type field: a Type row is built exactly from a listed value or from no value, and no value means "Issue" |
| `Models.StatusLabel` | source/webapp/models.py:44-45 | prints a listed value that parses back to the row's status |
| `Models.TypeLabel` | source/webapp/models.py:56-57 | prints a listed value that parses back to the row's type |
| `Models.CreateProject` | source/webapp/models.py:9-14 | a project is created exactly when name (at most 50) and description (at most 300) clean as required text and a start date is given; it is valid, carries the stripped fields and starts not deleted |
| `Models.Label` | source/webapp/models.py:16-17 | the printed label parses back to the primary key and the name, and its key has no leading zero |
| `Models.LabelInjective` | source/webapp/models.py:16-17 | equal labels mean equal primary key and name |
| `Models.LabelExample` | source/webapp/models.py:16-17 | project 12 named "Tracker" prints as "12. Tracker" |
| `Text.ParseDecimalOfDecimal` | source/webapp/models.py:17 | the decimal digits of a key read back as that key |
| `Models.CleanIssueForm` | source/webapp/models.py:24-31 | an issue form is accepted exactly when the summary (at most 300) passes `title`, the description (at most 3500) has no '0', the status exists and the types are a non-empty set of existing types; what it accepts satisfies every field bound |
| `Models.IssueDefaultsAreValid` | source/webapp/models.py:26-29 | the declared defaults of summary and description pass their validators |
| `Forms.CleanCharField` | source/webapp/forms.py:24 | a text field is valid exactly when its stripped value is non-empty if required, fits the maximum length and has no NUL; the cleaned value is the stripped text |
| `Forms.CleanIgnoresSurroundingSpace` | source/webapp/forms.py:24 | padding the submitted text with spaces does not change how it cleans |
| `Forms.StripOfPadded` | source/webapp/forms.py:24 | stripping a text padded with a space on each side gives the same as stripping the text |
| `Text.StripEmptyIff` | source/webapp/forms.py:24 | a search text cleans to empty exactly when it is all whitespace |
| `ProjectViews.ActiveProjects` | source/webapp/views/project.py:32 | keeps exactly the stored projects whose flag is clear, in their order |
| `ProjectViews.SearchedProjects` | source/webapp/views/project.py:32-37 | the listing rows are drawn, in order, from the undeleted projects |
| `ProjectViews.InsertByStartDate` | source/webapp/views/project.py:38 | inserting into a date-sorted list keeps it sorted and adds exactly that row |
| `ProjectViews.SortByStartDate` | source/webapp/views/project.py:38 | the result is sorted by start date and a permutation of the input |
| `ProjectViews.ProjectListing` | source/webapp/views/project.py:31-38 | the listing is sorted by start date and a permutation of the searched rows |
| `ProjectViews.ListingOnlyActive` | source/webapp/views/project.py:32 | every listed project is stored and not soft-deleted |
| `ProjectViews.ListingWithSearch` | source/webapp/views/project.py:33-37 | with a valid non-empty search, a project is listed iff it is undeleted and its name or description contains the text, ignoring case |
| `ProjectViews.ListingWithoutSearch` | source/webapp/views/project.py:33-36 | an empty or invalid search (for example longer than 100 characters) lists all undeleted projects |
| `ProjectViews.SearchExample` | source/webapp/views/project.py:37 | "proj" matches a project named "MyProject" |
| `ProjectViews.VisibleProject` | source/webapp/views/project.py:47-49 | the detail and update lookup finds only an undeleted project with that key, and finds none only when every project with that key is deleted |
| `ProjectViews.PaginateComments` | source/webapp/views/project.py:60-68 | a project without issues gets the empty list, no page and not paginated; otherwise exactly its issues go to the paginator |
| `ProjectViews.MarkDeleted` | source/webapp/views/project.py:14-19 | same rows in the same order; the flag is set on exactly the rows whose key is listed; no other field changes |
| `ProjectViews.MarkDeletedIdempotent` | source/webapp/views/project.py:14-19 | soft-deleting twice is the same as once |
| `ProjectViews.MarkDeletedIgnoresUnknown` | source/webapp/views/project.py:16 | keys matching no project change nothing |
| `ProjectViews.MarkDeletedHides` | source/webapp/views/project.py:14-19 | a soft-deleted project disappears from the listing and from the detail and update lookups |
| `ProjectViews.IndexOfPk` | source/webapp/views/project.py:102 | finds the position of the project with that key, or reports that none is stored |
| `ProjectViews.ProjectTable.MultiDelete` | source/webapp/views/project.py:14-19 | the table afterwards is `MarkDeleted` of the old table and the submitted keys; keys stay unique |
| `ProjectViews.ProjectTable.Delete` | source/webapp/views/project.py:99-105 | an unknown key changes nothing; a known one sets only that row's flag and keeps the row |
| `IssueViews.SearchIssues` | source/webapp/views/issue.py:22-27 | without a search value the issues are returned as they are; with one, an issue is kept iff its summary or description contains it, ignoring case; the result is a subsequence of the input |
| `IssueViews.SearchKeepsStoredIssues` | source/webapp/views/issue.py:26 | a search result is a stored issue that matches |
| `IssueViews.IssueTable.CreateIssue` | source/webapp/views/issue.py:53-62 | with the URL's project found, appends one issue carrying that project and the form's fields under a fresh key; otherwise stores nothing |
| `OrderViews.Added` | source/webapp/views/order_views.py:38-51 | only the session's line for the product may change, and only to a quantity within stock; the stock bound is preserved |
| `OrderViews.AddNewLine` | source/webapp/views/order_views.py:48-50 | a first add creates a line of `qty` exactly when `qty` fits the product's amount |
| `OrderViews.AddToExistingLine` | source/webapp/views/order_views.py:44-47 | a repeated add stores `old + qty` when that fits the amount and keeps `old` otherwise |
| `OrderViews.RepeatedAddExamples` | source/webapp/views/order_views.py:43-50 | with stock 5 two adds of 3 leave 3; with stock 10 they leave 6 |
| `OrderViews.RemovedOne` | source/webapp/views/order_views.py:78-86 | the line drops by one and is deleted when that leaves less than one; no other line changes |
| `OrderViews.RemoveOneExamples` | source/webapp/views/order_views.py:82-86 | a line of 1 is deleted; a line of 2 becomes 1 |
| `OrderViews.RemovedLine` | source/webapp/views/order_views.py:63-68 | the line is gone whatever its quantity; no other line changes |
| `OrderViews.RemovalsKeepWithinStock` | source/webapp/views/order_views.py:63-86 | both removals preserve the stock bound |
| `OrderViews.SessionCart` | source/webapp/views/order_views.py:26 | the cart page shows exactly the current session's lines |
| `OrderViews.StockAfterOrder` | source/webapp/views/order_views.py:109-118 | a covered line reduces its product's amount by its quantity and leaves it non-negative; every other amount is unchanged |
| `OrderViews.CartAfterOrder` | source/webapp/views/order_views.py:119 | the ordering session's cart is empty; every other session's cart is unchanged |
| `OrderViews.PlacedLinesOnePerCoveredLine` | source/webapp/views/order_views.py:109-117 | each covered line yields exactly one order line with its product and quantity; a line beyond stock yields none |
| `OrderViews.OrderCanBreakOtherSessionsBound` | source/webapp/views/order_views.py:109-119 | an order by one session can leave another session's line above the remaining stock |
| `OrderViews.OrdersOf` | source/webapp/views/order_views.py:131-134 | lists exactly the orders owned by the signed-in user, in order |
| `OrderViews.SettleCart` | source/webapp/views/order_views.py:109-118 | the loop over the session's lines yields the amounts of `StockAfterOrder` and the order lines of `PlacedLines` |
| `OrderViews.Shop.Add` | source/webapp/views/order_views.py:34-51 | an unknown product changes nothing; otherwise the cart becomes `Added` with the given quantity, or 1 when none is given; nothing else changes |
| `OrderViews.Shop.DeleteLine` | source/webapp/views/order_views.py:63-68 | the cart becomes `RemovedLine`; nothing else changes |
| `OrderViews.Shop.DeleteOne` | source/webapp/views/order_views.py:78-88 | a missing line changes nothing; otherwise the cart becomes `RemovedOne`; nothing else changes |
| `OrderViews.Shop.PlaceOrder` | source/webapp/views/order_views.py:96-120 | with an invalid form nothing changes; otherwise one order owned by the caller (or nobody) is stored, stock becomes `StockAfterOrder`, the new order lines satisfy `PlacedLines`, and the session's cart is cleared |

## Left out

- Session creation. The session key is a parameter. Saving a fresh session when there is none is not modelled.
- Not-found responses. An unknown product, cart line or project is a `found = false` or `None` result with no change. Redirects, success URLs, the `next` parameter and templates are not modelled.
- The paginator. Its page size, orphan rule and page selection come from the framework, so the model only says which issues go to it. The listing pages' pagination is not modelled either.
- Permissions. Login, permission and authorship checks are left out. They depend on framework user objects, and the authorship check reads an `author` field that Project does not declare.
- The referenced but unseen code. This covers the Cart, Product, Order and OrderProduct declarations, `Cart.get_with_product`, `Cart.get_cart_total`, `CartAddForm`, `OrderForm`, and the `SearchView` base that computes the issue list's search value. Quantities and amounts are plain integers. The order form's validity and the search value are parameters.
- How a cart line is named. The delete views name a line by its row key. The model names it by its (session, product) pair, which `Add` keeps unique.
- Concurrency. The unlocked read-then-decrement of stock in order placement is modelled as one sequential run.
- Timestamps. The issue's creation and update timestamps are not modelled.
- Character handling. Case folding, `isupper` and whitespace cover ASCII only.
- Display text. The Russian display labels of the choices, verbose names and the validators' messages are not modelled.
- Dates. They are day numbers; only their order is used.
- `multi_delete` input. The submitted ids are taken as numbers. Parsing the request's text values is not modelled.
- Issue views left out. The update, delete and detail views of issues, and the project create and update views beyond the lookup and the record cleaning, are generic framework views.
- `Models.CleanIssueForm` treats an empty description as the empty string. The framework may store it as NULL instead, because the field allows null.
- The user-creation form's other checks (password match, e-mail) belong to the framework's base form and are not modelled.
- `Models.CreateStatus`, `Models.CreateType`: each combines the validation of the choice with the declared default. In the application these apply on different paths. The database layer applies the default when a row is saved without a value, but it stores any value without checking the choices. The admin form checks the choices, but it requires a value because the field may not be blank, so there the default is only the pre-selected entry.
