# Product catalog: validation, CSV import and pagination

This project models, in Dafny, the logic at the core of a small product catalog application (an Express/Prisma backend and a React frontend). Four parts are modelled.

- **The backend product schema** (`ProductSchema`). This is the Zod object `productSchema`: `nome` has 3 to 50 characters, `preco` is a number of at least 10, `descricao` has 30 to 255 characters, and `imagem` is an optional string. `SafeParse` is what `safeParse` returns. On success it gives the product, unchanged. On failure it gives one issue per failing field, in declaration order, each naming its field.
- **The product controller** (`ProductController`). The store is the class `Catalog`, with methods `CreateProduct`, `ImportProducts` and `GetProducts`. `CreateProduct` validates, then caps the base64-decoded image at 2 MiB, then stores exactly one record. `ImportProducts` calls `ScanRows`, the one-pass `'data'` loop over the decoded CSV rows. That loop keeps the line counter and the `errors`/`results` lists. Then comes the all-or-nothing `'end'` decision: 422 with every error entry and no write, or one batch write of every product in row order. The text of an error entry, and the reading back of its line number and failing fields, are in the module `ImportReport`.
- **The catalog list page** (`ProductListPage`). The class `ListPage` holds `page` and `itemsPerPage` and the two handlers. The visible slice is `paginatedProducts`, written with JavaScript's `slice` semantics. The module also models the page count `Math.max(1, Math.ceil(len / n))` and the rule for showing the pagination control.
- **The registration form** (`ProductRegisterPage`). This is the form's Zod schema: the same three bounds with the form's own messages, plus two refinements on the selected file. It also covers the JSON payload `onSubmit` sends, and how the backend schema receives that payload.

Foreign code and I/O become parameters:
- the decoded CSV rows (`seq<map<string,string>>`, in place of csv-parser);
- `Number(...)` on a cell (`toNumber`);
- the length of `Buffer.from(imagem, 'base64')` (`decodedSize`);
- `toBase64` on a file (`encode`);
- whether a Prisma call fails (`storeFails`).

Three details of the code that the model keeps as written:
- Error entries of the import read `Erro na linha <n>: <paths>`.
- The 2 MiB cap applies only when `imagem` is truthy, so an empty string skips it.
- The parser stream has no `'error'` handler; a malformed CSV line is not modelled.

## Model

| member | source | states |
|---|---|---|
| `ProductSchema.FieldIssues` | backend/src/schemas/produto.schema.ts:4-7 | each field check yields at most one issue, always on that field, and none exactly when the field meets its constraint (string 3..50, finite number >= 10, string 30..255, absent or string) |
| `ProductSchema.IssuesOfMentions` | backend/src/schemas/produto.schema.ts:3-8 | the object parse reports an issue on a listed field iff that field's constraint fails |
| `ProductSchema.IssuesOfOrdered` | backend/src/schemas/produto.schema.ts:3-8 | the object's issues come in field declaration order, each on one of the listed fields |
| `ProductSchema.IssuesInDeclarationOrder` | backend/src/schemas/produto.schema.ts:3-8 | the object's issues are nome's, then preco's, then descricao's, then imagem's |
| `ProductSchema.Issues` | backend/src/schemas/produto.schema.ts:3-8 | the issues name exactly the failing fields, in declaration order, at most one per field, and are empty iff all four constraints hold |
| `ProductSchema.SafeParse` | backend/src/schemas/produto.schema.ts:3-8 | success iff all four constraints hold; the product then carries the input's values unchanged (an absent image stays absent) and is well-formed; failure carries a non-empty issue list |
| `ProductSchema.ParseRoundTrip` | backend/src/schemas/produto.schema.ts:3-8 | every well-formed product, written as JSON, parses back to itself |
| `ProductSchema.AcceptedIffWellFormed` | backend/src/schemas/produto.schema.ts:3-8 | a product passes the schema iff it satisfies the three bounds |
| `ProductSchema.SingleViolation` | backend/src/schemas/produto.schema.ts:3-8 | an input violating exactly one field constraint gets exactly one issue, on that field |
| `Text.NatToString` | backend/src/controller/produto.controller.ts:81 | the template rendering of the line number is a non-empty run of decimal digits with no leading zero |
| `Text.ParseNatToString` | backend/src/controller/produto.controller.ts:81 | reading the rendered digits back gives the line number |
| `Text.LeadingDigitsStop` | backend/src/controller/produto.controller.ts:81 | the digits of the line number end at the `:` that follows them |
| `Text.Join` | backend/src/controller/produto.controller.ts:81 | `paths.join(', ')` starts with the first path; splitting it again is `Text.SplitJoin` |
| `Text.SplitJoin` | backend/src/controller/produto.controller.ts:81 | splitting a `join(', ')` of comma-free parts on `, ` gives back exactly those parts, in order |
| `ProductController.CsvRecord` | backend/src/controller/produto.controller.ts:75-78 | the object validated for a row has the row's cells as strings and `preco` replaced by `Number` of its cell, NaN when the column is missing |
| `ImportReport.Paths` | backend/src/controller/produto.controller.ts:81 | the path list names each issue's field key, one per issue, in order |
| `ImportReport.RowError` | backend/src/controller/produto.controller.ts:81 | an entry starts with `Erro na linha ` followed by exactly the decimal digits of the line number, which end there; for a row with issues, the text after `<n>: ` split on `, ` is exactly the failing fields' keys, in order |
| `ImportReport.PathsWithoutComma` | backend/src/controller/produto.controller.ts:81 | no field key contains a comma, so the joined path list can be split back |
| `ImportReport.ReportedLineRoundTrip` | backend/src/controller/produto.controller.ts:81 | the line number can be read back from the error entry written for that line, whatever its issues |
| `ProductController.RowOutcome` | backend/src/controller/produto.controller.ts:75-84 | a row succeeds iff its record conforms to the schema, and then carries exactly the product `safeParse` returns for that record; a failing row's entry is the error entry for its line, listing the schema's issues for that record |
| `ProductController.OutcomeAt` | backend/src/controller/produto.controller.ts:64-74 | the outcome at index k is the outcome of row k read as line k + 2 (the counter starts at 1 and is bumped before each row) |
| `ProductController.Outcomes` | backend/src/controller/produto.controller.ts:73-85 | one outcome per row, in row order (each one characterised by `ProductController.OutcomeAt`) |
| `ProductController.OutcomeDescribesRow` | backend/src/controller/produto.controller.ts:75-83 | a passing row yields the product carrying that row's own cell values (`preco` through `Number`) |
| `ProductController.Failures` | backend/src/controller/produto.controller.ts:80-81 | the `errors` list: the failing outcomes' entries in row order, never more than there are rows |
| `ProductController.Successes` | backend/src/controller/produto.controller.ts:82-83 | the `results` list: the passing outcomes' products in row order, never more than there are rows |
| `ProductController.OutcomeSucceedsIff` | backend/src/controller/produto.controller.ts:75-84 | the row at index k succeeds iff its record conforms to the schema |
| `ProductController.PartitionCount` | backend/src/controller/produto.controller.ts:80-84 | every row lands in exactly one of errors and results: the two lengths add up to the number of rows |
| `ProductController.FiltersAppend` | backend/src/controller/produto.controller.ts:73-85 | errors and results both keep input order: an earlier block of rows contributes before a later one |
| `ProductController.NoFailuresIff` | backend/src/controller/produto.controller.ts:87 | there are no error entries iff every row validates |
| `ProductController.AllSucceed` | backend/src/controller/produto.controller.ts:83-92 | when every row validates, results are the rows' products in row order |
| `ProductController.FailingRowReported` | backend/src/controller/produto.controller.ts:74-81 | a failing row's entry is among the errors and is the error entry for line index + 2 with that row's issues, so its line reads back by `ImportReport.ReportedLineRoundTrip` |
| `ProductController.SuccessesWellFormed` | backend/src/controller/produto.controller.ts:83 | the products collected from outcomes whose products are well-formed are well-formed |
| `ProductController.ImportedWellFormed` | backend/src/controller/produto.controller.ts:83 | every product an import would store is well-formed |
| `ProductController.ScanStep` | backend/src/controller/produto.controller.ts:73-85 | one more row extends exactly one of the two lists, by that row's outcome |
| `ProductController.ScanRows` | backend/src/controller/produto.controller.ts:62-85 | the loop ends with the counter at rows + 1, errors and results equal to the failing and passing rows in order, and their lengths summing to the number of rows |
| `ProductController.WithIds` | backend/src/controller/produto.controller.ts:92 | a batch write stores every product of the batch, in order, under strictly increasing ids that all lie in [start, start + batch size), so none clashes with an id below start |
| `ProductController.HasImage` | backend/src/controller/produto.controller.ts:33 | the image counts as present iff it is set and non-empty, as `if (imagem)` reads a string |
| `ProductController.CheckCreate` | backend/src/controller/produto.controller.ts:25-48 | a create may proceed iff the body conforms and no truthy image decodes to more than 2 MiB; otherwise 422 with the schema issues or with `Imagem maior que 2MB` |
| `ProductController.ImageSizeBoundary` | backend/src/controller/produto.controller.ts:33-39 | an image of exactly 2 MiB passes, one byte more is rejected |
| `ProductController.AddKeepsInvariant` | backend/src/controller/produto.controller.ts:41-48 | storing one well-formed product under the next id keeps every record well-formed with increasing ids below the next free one |
| `ProductController.BatchKeepsInvariant` | backend/src/controller/produto.controller.ts:92 | storing a batch of well-formed products under consecutive fresh ids keeps the store invariant |
| `ProductController.Catalog.constructor` | backend/src/controller/produto.controller.ts:2 | an empty store satisfies the store invariant |
| `ProductController.Catalog.GetProducts` | backend/src/controller/produto.controller.ts:7-17 | 200 with every stored record, or 500 when the store fails; a listing satisfies the store invariant: every listed product is well-formed and ids are strictly increasing (in the modelled insertion order) and below the next free id |
| `ProductController.Catalog.CreateProduct` | backend/src/controller/produto.controller.ts:19-54 | rejections leave the store unchanged; otherwise exactly one record with a fresh id is appended (or 500 and no change when the store fails); the store invariant holds |
| `ProductController.Catalog.ImportProducts` | backend/src/controller/produto.controller.ts:56-101 | no file: 400 `Nenhum arquivo enviado`; any failing row: 422 with every entry and no write; otherwise one batch append of all products in order (500 and no change when it fails); the store invariant holds |
| `ProductListPage.RelativeIndex` | frontend/src/pages/ProductListPage.tsx:81 | `slice` clamps its indices to the list and reads a non-negative index as itself |
| `ProductListPage.JsSlice` | frontend/src/pages/ProductListPage.tsx:81 | `slice` never yields more than the list; with indices 0 <= start <= end it is the part between them, both clamped to the list |
| `ProductListPage.Paginated` | frontend/src/pages/ProductListPage.tsx:79-81 | the "all" setting shows the whole list; otherwise page p shows the products between (p - 1) * n and p * n, both bounds clamped to the end of the list |
| `ProductListPage.PageCount` | frontend/src/pages/ProductListPage.tsx:266 | the page count (also shown in the chip at line 173) is at least 1, is 1 for an empty list, and is otherwise the least c with len <= c * n |
| `ProductListPage.ShowsPagination` | frontend/src/pages/ProductListPage.tsx:255 | the control is rendered iff the page size is smaller than the list (its consequences are `HiddenControlSinglePage` and `ShownControlSeveralPages`) |
| `ProductListPage.HiddenControlSinglePage` | frontend/src/pages/ProductListPage.tsx:255-266 | when the control is hidden there is one page, and page 1 is the whole list |
| `ProductListPage.ShownControlSeveralPages` | frontend/src/pages/ProductListPage.tsx:255-266 | when the control is shown there are at least two pages |
| `ProductListPage.FirstPage` | frontend/src/pages/ProductListPage.tsx:79-81 | page 1 shows the first n products |
| `ProductListPage.NoEmptyPage` | frontend/src/pages/ProductListPage.tsx:81 | a page within the page count is never empty when the list is not |
| `ProductListPage.PagesUpToPrefix` | frontend/src/pages/ProductListPage.tsx:81 | pages 1 to k concatenate to the first k * n products |
| `ProductListPage.PagesConcatenate` | frontend/src/pages/ProductListPage.tsx:81 | pages 1 to the page count concatenate to the whole list |
| `ProductListPage.ListPage.constructor` | frontend/src/pages/ProductListPage.tsx:27-30 | the page starts on page 1 with 10 items per page, within the state invariant |
| `ProductListPage.ListPage.Visible` | frontend/src/pages/ProductListPage.tsx:79-81 | the visible products of a valid page state are never empty unless the list is |
| `ProductListPage.ListPage.ChangePage` | frontend/src/pages/ProductListPage.tsx:62-65 | sets the page to the chosen value and leaves the page size and the list unchanged; the new page is not empty |
| `ProductListPage.ListPage.ChangeItemsPerPage` | frontend/src/pages/ProductListPage.tsx:67-70 | sets the page size to the chosen option (one of those at lines 198-203) and resets to page 1, which shows the first products |
| `ProductRegisterPage.NomeIssues` | frontend/src/pages/ProductRegisterPage.tsx:33-35 | the name's own messages are raised exactly for fewer than 3 or more than 50 characters |
| `ProductRegisterPage.PrecoIssues` | frontend/src/pages/ProductRegisterPage.tsx:36-37 | NaN raises the not-a-number message, a number under 10 the minimum message |
| `ProductRegisterPage.DescricaoIssues` | frontend/src/pages/ProductRegisterPage.tsx:38-40 | the description's messages are raised exactly for fewer than 30 or more than 255 characters |
| `ProductRegisterPage.ImageIssues` | frontend/src/pages/ProductRegisterPage.tsx:41-44 | the size and type messages are raised exactly when the matching refinement fails |
| `ProductRegisterPage.FormIssues` | frontend/src/pages/ProductRegisterPage.tsx:29-45 | a check is reported iff its constraint is violated; the two file checks only with exactly one file |
| `ProductRegisterPage.AcceptsIffNothingFails` | frontend/src/pages/ProductRegisterPage.tsx:32-45 | the bounds and both refinements hold iff none of the eight checks fails |
| `ProductRegisterPage.FlagsFormIssues` | frontend/src/pages/ProductRegisterPage.tsx:32-45 | the form raises an issue on a field iff that field's own checks raise one |
| `ProductRegisterPage.ValidateWith` | frontend/src/pages/ProductRegisterPage.tsx:32-45 | the form passes iff all bounds and both refinements hold, and then yields its values unchanged; `Validate` applies it with `MAX_FILE_SIZE` as written (5 GiB), `ValidateIntended` with 5 MiB |
| `ProductRegisterPage.RefinementsNeedOneFile` | frontend/src/pages/ProductRegisterPage.tsx:42-43 | with no file or several files, no image issue is raised |
| `ProductRegisterPage.ImageText` | frontend/src/pages/ProductRegisterPage.tsx:68-71 | there is an image text iff at least one file is selected, and it is the first file's encoding |
| `ProductRegisterPage.PayloadAsWritten` | frontend/src/pages/ProductRegisterPage.tsx:68-76 | the payload as sent has the four keys, and `imagem` is null exactly when no file is selected, and otherwise the first file's encoding |
| `ProductRegisterPage.Payload` | frontend/src/pages/ProductRegisterPage.tsx:68-76 | the corrected payload has the three shared keys, and `imagem` only when a file is selected, then holding its encoding |
| `ProductRegisterPage.PayloadSharedFields` | frontend/src/pages/ProductRegisterPage.tsx:73-76 | the payload copies nome, preco and descricao from the form |
| `ProductRegisterPage.SharedBoundsAgree` | frontend/src/pages/ProductRegisterPage.tsx:33-40 | on nome, preco and descricao, the form raises no issue iff the backend schema accepts the submitted field |
| `ProductRegisterPage.PayloadAsWrittenRejectsNoImage` | frontend/src/pages/ProductRegisterPage.tsx:68-76 | as written, an accepted form passes the backend schema iff it carries an image, and then parses to the form's own values with that image's encoding; without one the single issue is an invalid type on `imagem` |
| `ProductRegisterPage.AcceptedFormAcceptedByBackend` | frontend/src/pages/ProductRegisterPage.tsx:66-78 | with the image key omitted when there is none, every accepted form passes the backend schema with the same values |
| `ProductRegisterPage.SixMiBImageAcceptedAsWritten` | frontend/src/pages/ProductRegisterPage.tsx:29-42 | with `MAX_FILE_SIZE` as written, a single 6 MiB PNG passes the check labelled 5MB |
| `ProductRegisterPage.OversizedImageRejected` | frontend/src/pages/ProductRegisterPage.tsx:42 | with a 5 MiB cap, a single file over 5 MiB is rejected with the size message, and only such a file is |

## Left out

- CSV decoding (csv-parser's header handling, quoting, delimiters) and the `Readable` stream: the rows come in already decoded. A parser error event has no handler in the code and is not modelled.
- `Number(text)` and IEEE doubles: prices are `real` and `toNumber` is a parameter. A JavaScript number is a finite real or NaN; the infinities are not modelled.
- `Buffer.from(imagem, 'base64').length` and `toBase64`/FileReader are parameters (`decodedSize`, `encode`).
- Prisma: the store is the `Catalog` class's sequence of records. Ids are modelled as consecutive numbers from `nextId`. A failing `create`/`createMany` is an input (`storeFails`) mapped to 500, and `createMany` is taken to be atomic.
- Zod's default message texts: a backend issue carries its field and kind, and the 422 body of a single create is that issue list.
- Request bodies that are not JSON objects: the body is modelled as an object.
- JavaScript string length counts UTF-16 code units; the model uses `|s|` over `seq<char>`.
- The 3-second delays, async ordering and the exceptions the outer `try` blocks catch.
- Express, Swagger, routing, the API-key middleware and multer's CSV-type and 10 MB limits: framework configuration with no logic of the core.
- The frontend's fetch, loading state, snackbar, `window.scrollTo` and all rendering. The list is given to `ListPage` when it is built.
- react-hook-form shows a single message per field; the model gives the schema's full list of failed checks.
- ProductController.Catalog.GetProducts: `findMany` is called without `orderBy`, so the code promises no order; the model lists the records in insertion order, and the strictly increasing ids of a listing rest on that choice.
- ProductListPage.PageCount: requires a positive page size. The "Todos" option on an empty list divides 0 by 0, and the chip and the count then show NaN.
- ProductListPage.ListPage.ChangePage: requires the value the pagination control can emit, a page between 1 and the page count while the control is shown.

## Findings

| source | as written | input that shows it | evidently intended | confidence | as-written member | corrected member |
|---|---|---|---|---|---|---|
| frontend/src/pages/ProductRegisterPage.tsx:68-76 | with no file chosen the payload sets `imagem: null`, which the backend's `z.string().optional()` rejects (backend/src/schemas/produto.schema.ts:7) | a valid form with no image selected gets 422 with an `imagem` issue | a product without an image is accepted (omit the key, or make the backend field nullable) | high, not executed | `ProductRegisterPage.PayloadAsWrittenRejectsNoImage` | `ProductRegisterPage.AcceptedFormAcceptedByBackend` |
| frontend/src/pages/ProductRegisterPage.tsx:29 | `MAX_FILE_SIZE = 5 * 1024 * 1024 * 1024`, five GiB, while the comment and the message say 5MB | a single 6 MiB PNG passes the size refinement | a cap of 5 * 1024 * 1024 bytes | high, not executed | `ProductRegisterPage.SixMiBImageAcceptedAsWritten` | `ProductRegisterPage.OversizedImageRejected` |
