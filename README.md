# eairp service core in Dafny

eairp is an ERP backend: purchase and sale receipts, product stock, roles and menus, products with
their attributes, categories and units, and basic data. The basic data covers departments,
warehouses, suppliers, customers, members and member advance charges. This project models the
decidable logic of its service layer. Each service answers with a `Response` envelope. It reads and
writes database tables through an ORM and localises its messages by the user's language. Here every
table is a `map<int, Row>` held by a service class. The service's methods update those maps, with
`modifies` clauses and postconditions that state the whole new state. Their contracts are then tied
to specification functions, and the properties of those functions are proved as lemmas.

Modelling conventions:

- A row's id is its map key. An insert takes a fresh id passed in by the caller in place of the
  Snowflake generator. A query without `ORDER BY` lists rows in ascending key order
  (`Tables.AscendingKeys`).
- `saveOrUpdate` inserts under a new id. On an existing id it writes only the non-null columns, as
  `updateById` does.
- `update(wrapper)` reports true when it matched at least one row. An empty `in (...)` list matches
  no row. `saveBatch` of an empty list reports false.
- The user's language is `Lang`. Only the setting `"zh_CN"` selects the Chinese constant, and any
  other setting, `null` included, selects the `_EN` one.
- `BigDecimal` is `Decimals.Decimal(unscaled, scale)`. Addition, subtraction, negation, comparison,
  `setScale(k, HALF_UP)`, `stripTrailingZeros`, `toString` and `toPlainString` are exact.
- Java `int` arithmetic wraps modulo 2^32 (`JavaInts`). `Long.parseLong` and `Integer.parseInt`
  accept only text in range.
- A Java exception is the `Throws` case of `Result`. A `@Transactional` method that throws rolls
  every table back to the state it started from.
- Ids, clock readings, the current user and the user's language are parameters of the operations
  that use them.

Module by module:

- `Wrappers`, `JavaInts`, `Text`, `Decimals`, `Tables` hold the value types and Java library
  behaviour the services rely on: `split`, `String.valueOf`, `parseLong`, `BigDecimal`, `int`
  overflow, paging.
- `Responses` covers the `Response` factories and the language switch.
- `BigDecimalSerializer` covers the serializer of amounts: absolute value, two places, HALF_UP.
- `ReceiptCommon`, `Receipts`, `ProductStock` and `ReceiptArrears` cover the purchase and sale
  receipts. That is the comma-separated id codec, line totals and product counts, the two-pass
  stock adjustment and the reversal of a receipt's previous rows on update, account balances on
  create, update and delete, status updates, soft delete and arrears netting.
- `Roles` and `Menus` cover the role-menu permission string `"[1][2][3]"`: its encoding and
  digit-run decoding, the administrator's grant, and the menu list's deduplication and sort.
- `Products`, `ProductAttributes` (and `ProductAttributesKt`), `ProductCategories` (and
  `ProductCategoriesKt`) and `ProductUnits` cover the product services. That is barcode validation,
  stock sums, attribute-name uniqueness and `|`-separated values, partial updates of categories, and
  the compute-unit string with its ratio formatting. The Kotlin files are modelled as written, apart
  from their Java siblings.
- `Departments` covers the two-level department tree and its partial update.
- `Warehouses` covers the single default warehouse.
- `Suppliers`, `Customers`, `Members`, `QuarterTotals` and `BatchImports` cover the basic-data
  services. That is quarter totals, defaults, guards and the batch imports, which deduplicate by a
  composite key; the first occurrence wins.
- `AdvanceCharges` covers the advance-charge receipts, which top up a member's balance.
- `AccountItem` covers the row shaping of the account-item detail endpoint and its amount sign rule.

The operations and service methods do what the code does, including where that differs from the
evident intent. The intended behaviour is modelled beside them, as `Intended…` members and corrected
lemmas, and lemmas such as `Receipts.UpdateAgreesWithIntended` give the inputs on which the two agree.
Each disagreement is listed under "Findings" with both halves.

## Model

| member | source | states |
|---|---|---|
| Responses.LangOf | core/service/src/main/java/com/wansenai/service/basic/impl/CustomerServiceImpl.java:233 | the Chinese branch is taken exactly when the setting is the string `"zh_CN"`; null and every other value give English |
| Responses.Localized | core/service/src/main/java/com/wansenai/service/basic/impl/CustomerServiceImpl.java:261-266 | the Chinese language picks the Chinese constant and English picks the English one |
| Responses.ResponseMsg | utils/src/main/java/com/wansensoft/utils/response/Response.java:44-56 | `responseMsg(enum)` carries the constant's code and message and no data |
| Responses.ResponseMsgLiteral | utils/src/main/java/com/wansensoft/utils/response/Response.java:58-63 | `responseMsg(code, msg)` carries exactly the given code and message (null stays null) and no data |
| Responses.Success | utils/src/main/java/com/wansensoft/utils/response/Response.java:36-38 | `success()` is the envelope of the SUCCESS constant |
| Responses.Fail | utils/src/main/java/com/wansensoft/utils/response/Response.java:40-42 | `fail()` is the envelope of the ERROR constant |
| Responses.ResponseData | utils/src/main/java/com/wansensoft/utils/response/Response.java:65-70 | `responseData(data)` carries the SUCCESS code and the data, with a null message |
| Responses.ResponseDataWithCode | utils/src/main/java/com/wansensoft/utils/response/Response.java:72-77 | `responseData(code, data)` carries exactly the given code and data, with a null message |
| Responses.EnumOf | utils/src/main/java/com/wansensoft/utils/response/Response.java:44-49 | the decoder a client applies to an envelope, with which `EnvelopeRoundTrip` closes the round trip: the code an envelope carries is read back as the one constant that has that code |
| Responses.EnvelopeRoundTrip | utils/src/main/java/com/wansensoft/utils/response/Response.java:36-70 | the constant and the data are recovered from `responseMsg` and `responseData`; a message envelope never equals a data envelope, and `success()` differs from `fail()` |
| Responses.ResponseMsgInjective | utils/src/main/java/com/wansensoft/utils/response/Response.java:44-49 | two constants give the same `responseMsg` envelope only when they are the same constant |
| BigDecimalSerializer.ConvertToPositiveFormatAndRound | core/domain/src/main/java/com/wansenai/bo/BigDecimalSerializerBO.java:22-26 | the converted value has scale 2 and is never negative |
| BigDecimalSerializer.Serialize | core/domain/src/main/java/com/wansenai/bo/BigDecimalSerializerBO.java:13-20 | null is written as JSON null and any other value as a number with scale 2 and no minus sign |
| BigDecimalSerializer.SerializeIsRoundedMagnitude | core/domain/src/main/java/com/wansenai/bo/BigDecimalSerializerBO.java:22-25 | v and −v serialise alike; the written number equals abs(v) when v has at most two decimals, and is otherwise within half a cent of it (HALF_UP) |
| BigDecimalSerializer.ConvertIdempotent | core/domain/src/main/java/com/wansenai/bo/BigDecimalSerializerBO.java:22-26 | converting an already converted value changes nothing |
| BigDecimalSerializer.SerializedText | core/domain/src/main/java/com/wansenai/bo/BigDecimalSerializerBO.java:16-24 | the written text is digits, a point and exactly two decimals, with no sign, and its digits spell the rounded magnitude |
| ReceiptCommon.ParseIdsToString | core/service/src/main/java/com/wansenai/service/receipt/impl/ReceiptPurchaseServiceImpl.java:167-169 | the stored string is empty exactly when the list is null or empty |
| ReceiptCommon.ParseAll | core/service/src/main/java/com/wansenai/service/receipt/impl/ReceiptPurchaseServiceImpl.java:668-670 | every piece is read with `Long.valueOf`, one id per piece in order, and the read throws exactly when some piece is not a `long` |
| ReceiptCommon.ParseStringToIds | core/service/src/main/java/com/wansenai/service/receipt/impl/ReceiptPurchaseServiceImpl.java:664-671 | a null or empty string gives the empty list; a list that is read back holds only `long` values |
| ReceiptCommon.ParseAndCollectLongList | core/service/src/main/java/com/wansenai/service/receipt/impl/ReceiptPurchaseServiceImpl.java:127-134 | the `hasLength`/`parseLong` variant decides every string exactly as `parseStringToIds` does |
| ReceiptCommon.ParseAllIdStrings | core/service/src/main/java/com/wansenai/service/receipt/impl/ReceiptPurchaseServiceImpl.java:667-670 | reading back the decimal text of `long` ids gives the ids |
| ReceiptCommon.IdsRoundTrip | core/service/src/main/java/com/wansenai/service/receipt/impl/ReceiptPurchaseServiceImpl.java:664-671 | `parseStringToIds(parseIdsToString(ids)) == ids` for every list of `long` ids, the empty list included, and the same for `parseAndCollectLongList` |
| ReceiptCommon.TotalAmount | core/service/src/main/java/com/wansenai/service/receipt/impl/ReceiptPurchaseServiceImpl.java:106-111 | the total is defined exactly when no mapped amount is null (a null makes `BigDecimal::add` throw) and always has scale 2 |
| ReceiptCommon.TotalAmountExact | core/service/src/main/java/com/wansenai/service/receipt/impl/ReceiptPurchaseServiceImpl.java:106-111 | amounts with at most two decimals are totalled exactly: the total is the sum of the amounts |
| ReceiptCommon.ArrearsAmount | core/service/src/main/java/com/wansenai/service/receipt/impl/ReceiptPurchaseServiceImpl.java:221-226 | the arrears total always has scale 2 |
| ReceiptCommon.ArrearsAmountIsTotal | core/service/src/main/java/com/wansenai/service/receipt/impl/ReceiptPurchaseServiceImpl.java:221-226 | the arrears total is the line-item total of the amounts with every null read as zero |
| ReceiptCommon.ArrearsAmountSkipsNull | core/service/src/main/java/com/wansenai/service/receipt/impl/ReceiptPurchaseServiceImpl.java:223 | a null amount adds nothing to the arrears total |
| ReceiptCommon.ArrearsAmountWithoutNulls | core/service/src/main/java/com/wansenai/service/receipt/impl/ReceiptPurchaseServiceImpl.java:221-226 | without nulls the arrears total equals the line-item total |
| ReceiptCommon.ProductNumber | core/service/src/main/java/com/wansenai/service/receipt/impl/ReceiptPurchaseServiceImpl.java:113-117 | the quantity total is a 32-bit `int` |
| ReceiptCommon.ProductNumberIsWrappedSum | core/service/src/main/java/com/wansenai/service/receipt/impl/ReceiptPurchaseServiceImpl.java:113-117 | `IntStream.sum` wraps step by step, which equals the mathematical sum wrapped once to 32 bits |
| ReceiptCommon.FlagMainsDeleted | core/service/src/main/java/com/wansenai/service/receipt/impl/ReceiptPurchaseServiceImpl.java:204-207 | exactly the listed mains get the deleted flag; no row appears or disappears |
| ReceiptCommon.FlagSubsDeleted | core/service/src/main/java/com/wansenai/service/receipt/impl/ReceiptPurchaseServiceImpl.java:209-212 | exactly the subs whose main id is listed get the deleted flag; no row appears or disappears |
| ReceiptCommon.SetMainsStatus | core/service/src/main/java/com/wansenai/service/receipt/impl/ReceiptPurchaseServiceImpl.java:232-235 | exactly the listed mains get the new status; no row appears or disappears |
| ReceiptCommon.SoftDeleteKeepsRows | core/service/src/main/java/com/wansenai/service/receipt/impl/ReceiptPurchaseServiceImpl.java:200-219 | the soft delete is idempotent, and a row is flagged after it exactly when it was listed (or its main was) or was flagged before |
| Receipts.ReverseType | core/service/src/main/java/com/wansenai/service/receipt/impl/ReceiptPurchaseServiceImpl.java:1017-1019 | the restore of a receipt's previous rows applies the stock type opposite to the flow's own (2 for a storage, 1 for a refund) |
| Receipts.ChangeAmountAsWrittenThrows | core/service/src/main/java/com/wansenai/service/receipt/impl/ReceiptPurchaseServiceImpl.java:1113 | as written, `thisPaymentAmount.negate()` throws exactly for a null amount in a flow that negates; otherwise it stores what the corrected column stores, which is null exactly for a null amount |
| Receipts.StorageWithoutPayment | core/service/src/main/java/com/wansenai/service/receipt/impl/ReceiptPurchaseServiceImpl.java:1113 | a purchase storage or a sale refund saved without an amount throws as written, while the corrected column stays null |
| Receipts.MoveValue | core/service/src/main/java/com/wansenai/service/receipt/impl/ReceiptPurchaseServiceImpl.java:1146-1156 | a create moves the balance by exactly the amount: up for incoming money, down for outgoing money |
| Receipts.ChangeValue | core/service/src/main/java/com/wansenai/service/receipt/impl/ReceiptPurchaseServiceImpl.java:1113 | the stored `changeAmount` is the amount, negated when the money leaves the account, at the amount's scale |
| Receipts.MoveIsStoredChange | core/service/src/main/java/com/wansenai/service/receipt/impl/ReceiptPurchaseServiceImpl.java:1113-1156 | the account moves by exactly the `changeAmount` the new main stores |
| Receipts.AccountsAfterCreate | core/service/src/main/java/com/wansenai/service/receipt/impl/ReceiptPurchaseServiceImpl.java:1146-1156 | the account step of a create: it throws exactly when the request's account exists, an amount is given and the stored balance is null; otherwise that account moves by the amount (down for money paid out, up for money received), no other account changes, and none changes when the amount is null. The `negate()` throw that comes before this step is `ChangeAmountAsWrittenThrows`, and the create's throws together are `CreateOutcomeResult` |
| Receipts.AccountsAfterUpdate | core/service/src/main/java/com/wansenai/service/receipt/impl/ReceiptPurchaseServiceImpl.java:1069-1082 | the account step of an update as written: it throws exactly when the request's account exists and its balance is null, a previous row's total is null, or a purchase refund carries no refund; otherwise that account takes the flow's update balance, which moves back by the previous rows' goods totals instead of the stored change, and no other account changes |
| Receipts.IntendedAccountsAfterUpdate | core/service/src/main/java/com/wansenai/service/receipt/impl/ReceiptPurchaseServiceImpl.java:1069-1082 | the evidently intended account step of an update: the account, when it exists, is moved back by the change the main stored and then by the new amount; only a null balance throws; no other account changes |
| Receipts.UpdateUndoesCreate | core/service/src/main/java/com/wansenai/service/receipt/impl/ReceiptPurchaseServiceImpl.java:1069-1082 | the corrected update undoes the change the main stored and applies the new amount, so the balance ends as if only the new amount had been applied |
| Receipts.UpdateOfSameAmountKeepsBalance | core/service/src/main/java/com/wansenai/service/receipt/impl/ReceiptPurchaseServiceImpl.java:1069-1082 | re-saving a receipt with an unchanged amount leaves the corrected balance where the create left it |
| Receipts.RowsTotal | core/service/src/main/java/com/wansenai/service/receipt/impl/ReceiptPurchaseServiceImpl.java:1073-1075 | the reduced total of the previous rows is defined exactly when no row total is null |
| Receipts.UpdateBalanceAsWritten | core/service/src/main/java/com/wansenai/service/receipt/impl/ReceiptPurchaseServiceImpl.java:1071-1079 | the update balance of a storage, shipment or sale refund is computed (does not throw) exactly when no previous row has a null total |
| Receipts.RefundUpdateBalanceAsWritten | core/service/src/main/java/com/wansenai/service/receipt/impl/ReceiptPurchaseServiceImpl.java:1605-1613 | the update balance of a purchase refund is computed exactly when no previous row has a null total and a refund is given, since `subtract(null)` throws |
| Receipts.TotalsOf | core/service/src/main/java/com/wansenai/service/receipt/impl/ReceiptPurchaseServiceImpl.java:1073-1074 | one total per previous row, in row order, each the row's stored `totalAmount`, null kept |
| Receipts.UpdateBalanceOf | core/service/src/main/java/com/wansenai/service/receipt/impl/ReceiptPurchaseServiceImpl.java:1069-1082 | the balance the flow's own update code computes throws exactly when a previous row's total is null or, in the purchase refund alone, the refund is null |
| Receipts.UpdateBalanceWithoutRows | core/service/src/main/java/com/wansenai/service/receipt/impl/ReceiptPurchaseServiceImpl.java:1069-1082 | outside the purchase refund, with no previous row and an amount given, the balance the code computes has the value of the corrected balance |
| Receipts.AccountsAgreeWithoutRows | core/service/src/main/java/com/wansenai/service/receipt/impl/ReceiptPurchaseServiceImpl.java:1069-1082 | in that case the code's account step and the intended one both throw or both succeed, and then agree on every balance up to its scale |
| Receipts.StorageCreateBalance | core/service/src/main/java/com/wansenai/service/receipt/impl/ReceiptPurchaseServiceImpl.java:1146-1156 | a purchase paying 60 from an empty account leaves it at −60 |
| Receipts.StorageUpdateAsWritten | core/service/src/main/java/com/wansenai/service/receipt/impl/ReceiptPurchaseServiceImpl.java:1069-1082 | as written, re-saving that purchase (goods worth 100) unchanged leaves the account at −20, not −60 |
| Receipts.UpdateOneRow | core/service/src/main/java/com/wansenai/service/receipt/impl/ReceiptPurchaseServiceImpl.java:1073-1079 | as written, with one previous row the update moves the balance back by that row's goods total, whatever payment the main stored |
| Receipts.StorageUpdateCorrected | core/service/src/main/java/com/wansenai/service/receipt/impl/ReceiptPurchaseServiceImpl.java:1069-1082 | the corrected update of the same purchase leaves the account at −60, as the create did |
| Receipts.RefundCreateBalance | core/service/src/main/java/com/wansenai/service/receipt/impl/ReceiptPurchaseServiceImpl.java:1681-1691 | a purchase refund of 100 into an empty account leaves it at 100 |
| Receipts.RefundUpdateAsWritten | core/service/src/main/java/com/wansenai/service/receipt/impl/ReceiptPurchaseServiceImpl.java:1603-1616 | as written, updating that refund (goods worth 100) to 30 subtracts the 30 and adds the goods back, leaving 170 |
| Receipts.RefundOneRow | core/service/src/main/java/com/wansenai/service/receipt/impl/ReceiptPurchaseServiceImpl.java:1605-1613 | as written, with one previous row the refund update is the balance less the new refund plus that row's total, whatever refund was stored |
| Receipts.RefundUpdateCorrected | core/service/src/main/java/com/wansenai/service/receipt/impl/ReceiptPurchaseServiceImpl.java:1603-1616 | the corrected refund update undoes the 100 and applies the 30, leaving 30 |
| Receipts.TotalCollectAmount | core/service/src/main/java/com/wansenai/service/receipt/impl/ReceiptSaleServiceImpl.java:801 | `totalCollectAmount` exists exactly when both the arrears and the change are non-null, and it is their exact sum |
| Receipts.UpdatedMainIdempotent | core/service/src/main/java/com/wansenai/service/receipt/impl/ReceiptPurchaseServiceImpl.java:1021-1041 | applying the update's `set` clauses twice equals applying them once; the receipt number and delete flag are untouched, and `changeAmount` is kept when no amount is given |
| Receipts.SubIdsOf | core/service/src/main/java/com/wansenai/service/receipt/impl/ReceiptPurchaseServiceImpl.java:1014-1016 | the listed ids are subs of the main, and every sub of the main among the keys is listed |
| Receipts.SubsOf | core/service/src/main/java/com/wansenai/service/receipt/impl/ReceiptPurchaseServiceImpl.java:1014-1016 | the previous rows are exactly the subs whose main id is the receipt's, deleted or not |
| Receipts.WithoutSubsOf | core/service/src/main/java/com/wansenai/service/receipt/impl/ReceiptPurchaseServiceImpl.java:1043-1045 | the physical remove drops exactly the receipt's subs and keeps every other row unchanged |
| Receipts.NewSubs | core/service/src/main/java/com/wansenai/service/receipt/impl/ReceiptPurchaseServiceImpl.java:1047-1064 | one sub per request line, in order, each carrying the main id and the line's amount as its total |
| Receipts.InsertAllAdds | core/service/src/main/java/com/wansenai/service/receipt/impl/ReceiptPurchaseServiceImpl.java:1066 | `saveBatch` under fresh ids keeps every existing sub and adds exactly the new rows under their ids |
| Receipts.UpdateOutcomeResult | core/service/src/main/java/com/wansenai/service/receipt/impl/ReceiptPurchaseServiceImpl.java:1013-1094 | an update throws exactly when a flow that negates the amount gets none (`negate()` at line 1028), or when the request's account exists and its balance is null, a previous row's total is null, or a purchase refund carries no refund; otherwise it answers UPDATE_..._SUCCESS exactly when the main existed and the request carried rows, and UPDATE_..._ERROR otherwise |
| Receipts.CreateOutcomeResult | core/service/src/main/java/com/wansenai/service/receipt/impl/ReceiptPurchaseServiceImpl.java:1095-1199 | a create throws exactly when a flow that negates the amount gets none (line 1113), when it would move an account with a null balance, or when the request carries no `operatorIds` (the loop at line 1160); otherwise it answers ADD_..._SUCCESS exactly when the request carried rows |
| Receipts.CreateAgreesWithIntended | core/service/src/main/java/com/wansenai/service/receipt/impl/ReceiptPurchaseServiceImpl.java:1095-1199 | a create that carries an amount and operators and at most one row is exactly the evidently intended create, stock, accounts and answer included |
| Receipts.UpdateAgreesWithIntended | core/service/src/main/java/com/wansenai/service/receipt/impl/ReceiptPurchaseServiceImpl.java:1013-1094 | outside the purchase refund, the first save of rows for a main that has none and stores no change, with an amount and at most one row, ends as the evidently intended update: the same throw or answer, the same mains, subs and stock, and the same balances up to scale |
| Receipts.UpdateWithoutRows | core/service/src/main/java/com/wansenai/service/receipt/impl/ReceiptPurchaseServiceImpl.java:1013-1082 | such an update, as the code performs it, applies the new rows with the corrected stock update and moves the account with no previous-row total |
| Receipts.StockWithoutRows | core/service/src/main/java/com/wansenai/service/receipt/impl/ReceiptPurchaseServiceImpl.java:1017-1067 | with nothing to reverse and at most one new row, the code's stock step equals the corrected one |
| Receipts.UpdateReplacesStock | core/service/src/main/java/com/wansenai/service/receipt/impl/ReceiptPurchaseServiceImpl.java:1013-1067 | with the corrected stock update, restore-then-reapply holds: the stock after an update is the stock before the receipt's previous rows were applied, with only the new rows applied to it |
| Receipts.UpdateDoesNotReplaceStockAsWritten | core/service/src/main/java/com/wansenai/service/receipt/impl/ReceiptPurchaseServiceImpl.java:1013-1067 | the code's stock step does not restore: a purchase storage with one sku's lines in warehouses 10 (+5) and 20 (+3), saved again with no lines, leaves warehouse 10 at 7 where it started at 0 |
| Receipts.UpdateIsLocal | core/service/src/main/java/com/wansenai/service/receipt/impl/ReceiptPurchaseServiceImpl.java:1013-1082 | an update changes only the main being updated, its subs and the request's account: every other main, sub and account is as before, and the main's subs are exactly the new rows |
| Receipts.SubsAfterUpdateLocal | core/service/src/main/java/com/wansenai/service/receipt/impl/ReceiptPurchaseServiceImpl.java:1043-1066 | the sub rows of other mains are kept and the main's own are replaced by exactly the new rows |
| Receipts.CreateIsLocal | core/service/src/main/java/com/wansenai/service/receipt/impl/ReceiptPurchaseServiceImpl.java:1096-1145 | a create adds the new main, built from the request, and its rows, and changes no other main or sub |
| Receipts.ReceiptBook.DeleteReceipts | core/service/src/main/java/com/wansenai/service/receipt/impl/ReceiptPurchaseServiceImpl.java:200-219 | an empty id list answers PARAMETER_NULL and changes nothing; otherwise the listed mains and their subs are flagged deleted, and success is reported exactly when both updates matched a row |
| Receipts.ReceiptBook.UpdateReceiptStatus | core/service/src/main/java/com/wansenai/service/receipt/impl/ReceiptPurchaseServiceImpl.java:228-241 | an empty id list or a null status answers PARAMETER_NULL and changes nothing; otherwise the listed mains take the status, and success is reported exactly when a row matched |
| Receipts.ReceiptBook.SaveBatch | core/service/src/main/java/com/wansenai/service/receipt/impl/ReceiptPurchaseServiceImpl.java:1144 | each row is saved under its generated id; an empty batch saves nothing and reports false |
| Receipts.ReceiptBook.ReplaceRows | core/service/src/main/java/com/wansenai/service/receipt/impl/ReceiptPurchaseServiceImpl.java:1043-1067 | the main's rows are replaced by the new rows and their stock applied by the two-pass stock update; mains and accounts are untouched, and the batch reports saved exactly when there were rows |
| Receipts.ReceiptBook.UpdateReceipt | core/service/src/main/java/com/wansenai/service/receipt/impl/ReceiptPurchaseServiceImpl.java:1013-1094 | the tables end as the update outcome of the code says (the `negate()` throw, the previous-rows balance, the two-pass stock update), and an exception leaves every table as it was |
| Receipts.ReceiptBook.FinishUpdate | core/service/src/main/java/com/wansenai/service/receipt/impl/ReceiptPurchaseServiceImpl.java:1021-1094 | once the previous rows' stock is reversed, the main's `set` clauses, the rows and the account leave the tables as the update outcome says, and an exception puts back the tables the update started from |
| Receipts.ReceiptBook.CreateReceipt | core/service/src/main/java/com/wansenai/service/receipt/impl/ReceiptPurchaseServiceImpl.java:1095-1199 | the tables end as the create outcome of the code says, including the throws on a null amount in a flow that negates it and on null `operatorIds`, and an exception leaves every table as it was |
| Receipts.ReceiptBook.AddOrUpdate | core/service/src/main/java/com/wansenai/service/receipt/impl/ReceiptPurchaseServiceImpl.java:1000-1013 | a request with an id runs the update and one without runs the create under the fresh id, both as the code performs them, with the outcomes above |
| Receipts.ReceiptBook.constructor | core/service/src/main/java/com/wansenai/service/receipt/impl/ReceiptPurchaseServiceImpl.java:83-96 | the book starts on the given receipts, lines, accounts and stock table, which are consistent |
| Receipts.ReceiptBook.Rollback | core/service/src/main/java/com/wansenai/service/receipt/impl/ReceiptPurchaseServiceImpl.java:999 | a failed transaction puts back the receipts, lines, accounts and stock quantities it started from, and keeps the barcode index |
| Receipts.ReceiptBook.ReverseRows | core/service/src/main/java/com/wansenai/service/receipt/impl/ReceiptPurchaseServiceImpl.java:1014-1019 | the previous rows are exactly the main's subs, and when there are any their stock is reversed by the two-pass stock update with the opposite stock type |
| ProductStock.Locate | core/service/src/main/java/com/wansenai/service/receipt/impl/ReceiptPurchaseServiceImpl.java:247-248 | a receipt line finds a stock row exactly when its barcode names a sku and that sku has a row in the line's warehouse; a null barcode or warehouse finds none |
| ProductStock.LocateDependsOnKeys | core/service/src/main/java/com/wansenai/service/receipt/impl/ReceiptPurchaseServiceImpl.java:247 | the lookup depends only on which stock rows exist, not on their quantities |
| ProductStock.Sign | core/service/src/main/java/com/wansenai/service/receipt/impl/ReceiptPurchaseServiceImpl.java:251-255 | stock type 1 adds, 2 subtracts, and any other type leaves the figure |
| ProductStock.Adjusted | core/service/src/main/java/com/wansenai/service/receipt/impl/ReceiptPurchaseServiceImpl.java:249-255 | the new figure is the stored `int` plus or minus the line's quantity, wrapped to 32 bits |
| ProductStock.StockMapAsWritten | core/service/src/main/java/com/wansenai/service/receipt/impl/ReceiptPurchaseServiceImpl.java:246-258 | every figure in `stockMap` is a 32-bit `int` |
| ProductStock.RowWarehouses | core/service/src/main/java/com/wansenai/service/receipt/impl/ReceiptPurchaseServiceImpl.java:259-263 | the warehouses the second pass writes into are exactly the non-null warehouse ids of the lines |
| ProductStock.QuantityAsWritten | core/service/src/main/java/com/wansenai/service/receipt/impl/ReceiptPurchaseServiceImpl.java:259-272 | the second pass updates existing stock rows only; no row appears or disappears |
| ProductStock.ApplyRowsSlot | core/service/src/main/java/com/wansenai/service/receipt/impl/ReceiptPurchaseServiceImpl.java:243-258 | with each line moving its own slot, a slot ends at its stored figure plus or minus the total quantity of the lines that land on it, wrapped to an `int`; a slot no line lands on keeps its figure |
| ProductStock.ApplyThenReverse | core/service/src/main/java/com/wansenai/service/receipt/impl/ReceiptPurchaseServiceImpl.java:243-258 | for the corrected stock update, reversing a set of lines with the opposite stock type restores every slot exactly, overflow included |
| ProductStock.SlotRestored | core/service/src/main/java/com/wansenai/service/receipt/impl/ReceiptPurchaseServiceImpl.java:251-255 | one slot of that restore |
| ProductStock.ReapplyReplaces | core/service/src/main/java/com/wansenai/service/receipt/impl/ReceiptPurchaseServiceImpl.java:243-258 | for the corrected stock update, restore-then-reapply: applying old lines, reversing them and applying new lines equals applying only the new lines |
| ProductStock.ReverseDoesNotRestoreAsWritten | core/service/src/main/java/com/wansenai/service/receipt/impl/ReceiptPurchaseServiceImpl.java:243-273 | the two-pass update does not restore: applying and then reversing one sku's lines in warehouses 10 (+5) and 20 (+3) leaves warehouse 10 at 7 where it started at 0, while the corrected update brings it back to 0 |
| ProductStock.AsWrittenAgreesOnOneRow | core/service/src/main/java/com/wansenai/service/receipt/impl/ReceiptPurchaseServiceImpl.java:243-273 | with at most one line the two-pass update equals the corrected one |
| ProductStock.OtherTypeChangesNothing | core/service/src/main/java/com/wansenai/service/receipt/impl/ReceiptPurchaseServiceImpl.java:251-255 | a stock type other than 1 and 2 leaves the stock as it is |
| ProductStock.CrossWarehouseOverwrite | core/service/src/main/java/com/wansenai/service/receipt/impl/ReceiptPurchaseServiceImpl.java:259-272 | as written, the figure of a sku computed for one warehouse overwrites its stock in every other warehouse a line names (7 becomes 5), while the corrected update changes neither slot |
| ProductStock.RepeatedSlotLosesUpdate | core/service/src/main/java/com/wansenai/service/receipt/impl/ReceiptPurchaseServiceImpl.java:246-258 | as written, two lines for the same slot each start from the stored figure, so 10 + 5 + 3 ends at 13; the corrected update ends at 18 |
| ProductStock.Overwritten | core/service/src/main/java/com/wansenai/service/receipt/impl/ReceiptPurchaseServiceImpl.java:259-272 | the written stock has the same rows as before |
| ProductStock.OverwriteOne | core/service/src/main/java/com/wansenai/service/receipt/impl/ReceiptPurchaseServiceImpl.java:260-270 | writing one more entry sets that sku's stock in the line's warehouse, when the row exists, and nothing else |
| ProductStock.WriteEach | core/service/src/main/java/com/wansenai/service/receipt/impl/ReceiptPurchaseServiceImpl.java:260-271 | the inner `forEach` writes every `stockMap` entry into the line's warehouse |
| ProductStock.StockTable.UpdateProductStockAsWritten | core/service/src/main/java/com/wansenai/service/receipt/impl/ReceiptPurchaseServiceImpl.java:243-273 | the table ends as the two passes of the source leave it |
| ProductStock.StockTable.StockMapOf | core/service/src/main/java/com/wansenai/service/receipt/impl/ReceiptPurchaseServiceImpl.java:244-258 | the first pass computes each located line's adjusted figure, the last line winning per sku |
| ProductStock.StockTable.WriteStockMap | core/service/src/main/java/com/wansenai/service/receipt/impl/ReceiptPurchaseServiceImpl.java:259-272 | the second pass writes every entry into the warehouse of every line |
| ProductStock.StockTable.WriteEntries | core/service/src/main/java/com/wansenai/service/receipt/impl/ReceiptPurchaseServiceImpl.java:260-271 | one line's pass writes every entry into that line's warehouse; a null warehouse matches no row |
| ProductStock.StockTable.UpdateProductStock | core/service/src/main/java/com/wansenai/service/receipt/impl/ReceiptPurchaseServiceImpl.java:243-258 | the corrected update moves each line's own slot by its quantity, one line after the other |
| ProductStock.StockTable.constructor | core/service/src/main/java/com/wansenai/service/receipt/impl/ReceiptPurchaseServiceImpl.java:83-96 | the table starts on the given barcode index and quantities |
| ReceiptArrears.SelectMains | core/service/src/main/java/com/wansenai/service/receipt/impl/ReceiptPurchaseServiceImpl.java:1850-1853 | the selected financial mains are exactly those among the keys that the query's two `eq` conditions match, in key order |
| ReceiptArrears.FinanceMainList | core/service/src/main/java/com/wansenai/service/receipt/impl/ReceiptPurchaseServiceImpl.java:1850-1853 | the list holds exactly the financial mains of the receipt's supplier that are not deleted, in id order |
| ReceiptArrears.SettledBy | core/service/src/main/java/com/wansenai/service/receipt/impl/ReceiptPurchaseServiceImpl.java:1869-1874 | the figure one financial main settles on a receipt has scale 2 |
| ReceiptArrears.Prepaid | core/service/src/main/java/com/wansenai/service/receipt/impl/ReceiptPurchaseServiceImpl.java:1865-1876 | the accumulated `prepaidArrears` has a non-negative scale |
| ReceiptArrears.RecordRows | core/service/src/main/java/com/wansenai/service/receipt/impl/ReceiptPurchaseServiceImpl.java:1854-1862 | one VO per record of the page, in page order, each built from its record and its prepaid figure |
| ReceiptArrears.OwingRowsKeepsOwing | core/service/src/main/java/com/wansenai/service/receipt/impl/ReceiptPurchaseServiceImpl.java:1877-1883 | the filter keeps exactly the rows whose payment arrears are positive |
| ReceiptArrears.PurchaseRowsOwe | core/service/src/main/java/com/wansenai/service/receipt/impl/ReceiptPurchaseServiceImpl.java:1877-1883 | every listed row is a record's row, carries `paymentArrears = arrears − prepaid` and owes something |
| ReceiptArrears.PurchaseOwingListed | core/service/src/main/java/com/wansenai/service/receipt/impl/ReceiptPurchaseServiceImpl.java:1879-1882 | every record of the page that still owes something is listed |
| ReceiptArrears.RecordRowsNetted | core/service/src/main/java/com/wansenai/service/receipt/impl/ReceiptPurchaseServiceImpl.java:1877-1881 | every record row's outstanding figure is its arrears net of what was settled |
| ReceiptArrears.AccumulatePrepaid | core/service/src/main/java/com/wansenai/service/receipt/impl/ReceiptPurchaseServiceImpl.java:1865-1876 | the loop's `prepaidArrears` is zero plus what each selected payment settled on the receipt |
| ReceiptArrears.PurchaseArrearsPage | core/service/src/main/java/com/wansenai/service/receipt/impl/ReceiptPurchaseServiceImpl.java:1847-1890 | the page lists exactly the owing rows, in page order, and copies the query's total, current and size |
| ReceiptArrears.Received | core/service/src/main/java/com/wansenai/service/receipt/impl/ReceiptSaleServiceImpl.java:1854-1866 | `receivedArrears` stays null exactly when the customer has no selected collection |
| ReceiptArrears.SaleArrearsRows | core/service/src/main/java/com/wansenai/service/receipt/impl/ReceiptSaleServiceImpl.java:1838-1868 | one row per record, with no positivity filter, each carrying the figures of its record |
| ReceiptArrears.ReceivedIsLatest | core/service/src/main/java/com/wansenai/service/receipt/impl/ReceiptSaleServiceImpl.java:1856-1865 | over a list in id order the figure kept is the one of the collection with the greatest id, because every pass overwrites it |
| ReceiptArrears.SaleReceivedFromLatestCollection | core/service/src/main/java/com/wansenai/service/receipt/impl/ReceiptSaleServiceImpl.java:1841-1865 | a sale record's received figure is null exactly when the customer has no collection whose status is `NOT_DELETED`, and otherwise is what the greatest-id such collection settled |
| ReceiptArrears.OverwriteReceived | core/service/src/main/java/com/wansenai/service/receipt/impl/ReceiptSaleServiceImpl.java:1854-1866 | the inner loop leaves the row with the received and receivable figures of the last collection iterated |
| ReceiptArrears.SaleArrearsPage | core/service/src/main/java/com/wansenai/service/receipt/impl/ReceiptSaleServiceImpl.java:1838-1874 | the page lists every record, in page order, and copies the query's counters |
| Roles.Bracketed | core/service/src/main/java/com/wansenai/service/role/impl/SysRoleServiceImpl.java:262 | one menu id is written as `[`, its decimal digits and `]` |
| Roles.MenuIdString | core/service/src/main/java/com/wansenai/service/role/impl/SysRoleServiceImpl.java:261-263 | the permission string is empty exactly when there are no ids, and otherwise ends with `]` |
| Roles.Then | core/service/src/main/java/com/wansenai/service/role/impl/SysRoleServiceImpl.java:116-117 | reading two strings one after the other appends their ids, and an exception in either propagates |
| Roles.ParseRuns | core/service/src/main/java/com/wansenai/service/role/impl/SysRoleServiceImpl.java:116-117 | every digit run read gives one id |
| Roles.ParseRunsAppend | core/service/src/main/java/com/wansenai/service/role/impl/SysRoleServiceImpl.java:116-117 | reading the runs of two pieces is reading each piece and appending |
| Roles.ConcatAppend | core/service/src/main/java/com/wansenai/service/role/impl/SysRoleServiceImpl.java:111-119 | reading one more relation string appends its ids to those read before |
| Roles.ConcatRest | core/service/src/main/java/com/wansenai/service/role/impl/SysRoleServiceImpl.java:111-119 | once a relation string throws, the whole read throws |
| Roles.ConcatStep | core/service/src/main/java/com/wansenai/service/role/impl/SysRoleServiceImpl.java:111-119 | one more string read, and an exception in it makes the whole read throw |
| Roles.Parts | core/service/src/main/java/com/wansenai/service/role/impl/SysRoleServiceImpl.java:111-118 | each relation string is read on its own |
| Roles.DigitRunsOfBracketed | core/service/src/main/java/com/wansenai/service/role/impl/SysRoleServiceImpl.java:113-116 | the digit runs of `[id]` are exactly the decimal digits of the id |
| Roles.DecodeEncode | core/service/src/main/java/com/wansenai/service/role/impl/SysRoleServiceImpl.java:110-120 | decoding a permission string gives back exactly the ids it was written from, in order, for ids that are non-negative `int`s |
| Roles.StringsOf | core/service/src/main/java/com/wansenai/service/role/impl/SysRoleServiceImpl.java:105-108 | at most one string per relation row |
| Roles.RegrantedRows | core/service/src/main/java/com/wansenai/service/role/impl/SysRoleServiceImpl.java:255-267 | after `rolePermission` the fresh row, holding the bracketed ids, is the role's only relation row; other roles' rows are kept |
| Roles.PermissionThenDecode | core/service/src/main/java/com/wansenai/service/role/impl/SysRoleServiceImpl.java:247-267 | granting a list of menu ids and then reading the role's menus gives back exactly that list |
| Roles.RegrantedStrings | core/service/src/main/java/com/wansenai/service/role/impl/SysRoleServiceImpl.java:255-267 | after `rolePermission` the role's only relation string is the new one |
| Roles.IdsOf | core/service/src/main/java/com/wansenai/service/role/impl/SysRoleServiceImpl.java:61-65 | the ids of the views, in order |
| Roles.ListedViewsStep | core/service/src/main/java/com/wansenai/service/role/impl/SysRoleServiceImpl.java:61-65 | one more stored row adds its view exactly when the role is listed |
| Roles.ListedViewsIds | core/service/src/main/java/com/wansenai/service/role/impl/SysRoleServiceImpl.java:54-59 | `roleList` shows exactly the live roles other than role 0 among the keys |
| Roles.ListedViewsRows | core/service/src/main/java/com/wansenai/service/role/impl/SysRoleServiceImpl.java:61-64 | each view of `roleList` is the stored row, without menu ids |
| Roles.ListedViewsOrdered | core/service/src/main/java/com/wansenai/service/role/impl/SysRoleServiceImpl.java:54-65 | `roleList` keeps the rows' key order |
| Roles.RoleListShows | core/service/src/main/java/com/wansenai/service/role/impl/SysRoleServiceImpl.java:51-68 | `roleList` shows exactly the live roles other than the platform administrator (id 0), each once, as stored and in key order |
| Roles.ReadMenuIds | core/service/src/main/java/com/wansenai/service/role/impl/SysRoleServiceImpl.java:111-119 | the loop over a role's relation strings reads exactly what the specification of the read says |
| Roles.ListViews | core/service/src/main/java/com/wansenai/service/role/impl/SysRoleServiceImpl.java:61-65 | the loop over the selected rows builds exactly the listed views |
| Roles.RoleService.RoleList | core/service/src/main/java/com/wansenai/service/role/impl/SysRoleServiceImpl.java:51-68 | the result is the listed views of the live roles in key order |
| Roles.RoleService.RoleMenuIds | core/service/src/main/java/com/wansenai/service/role/impl/SysRoleServiceImpl.java:104-121 | a role's menu ids are the digit runs of its relation rows, in order; a run beyond `int` throws |
| Roles.RoleService.PageRow | core/service/src/main/java/com/wansenai/service/role/impl/SysRoleServiceImpl.java:97-121 | one row of the page is the role with its decoded menu ids |
| Roles.RoleService.RolePageList | core/service/src/main/java/com/wansenai/service/role/impl/SysRoleServiceImpl.java:89-129 | an empty page is an empty result, not an error; otherwise each row carries its decoded menu ids, in page order, and one undecodable row fails the whole call |
| Roles.RoleService.UpdateStatus | core/service/src/main/java/com/wansenai/service/role/impl/SysRoleServiceImpl.java:133-157 | a null or blank id or a null status answers PARAMETER_NULL and changes nothing; otherwise exactly the role whose id is the text takes the status, and success is reported exactly when one matched |
| Roles.RoleService.DeleteRole | core/service/src/main/java/com/wansenai/service/role/impl/SysRoleServiceImpl.java:220-244 | a null or blank id answers PARAMETER_NULL; otherwise the matching role is only flagged deleted, and success is reported exactly when one matched |
| Roles.RoleService.AddOrUpdateRole | core/service/src/main/java/com/wansenai/service/role/impl/SysRoleServiceImpl.java:160-217 | a null request answers PARAMETER_NULL; without an id a live role is inserted under the fresh id; with one, every column is overwritten (nulls included) and success is reported exactly when the role existed |
| Roles.RoleService.RolePermission | core/service/src/main/java/com/wansenai/service/role/impl/SysRoleServiceImpl.java:247-276 | a null id or a null or empty menu list answers PARAMETER_NULL and changes nothing; otherwise the role's relation rows are replaced by one holding the bracketed ids |
| Roles.MatchAll | core/service/src/main/java/com/wansenai/service/role/impl/SysRoleServiceImpl.java:113-118 | the matcher loop reads exactly the digit runs of the string, parsed as `int`s |
| Roles.RoleService.constructor | core/service/src/main/java/com/wansenai/service/role/impl/SysRoleServiceImpl.java:39-48 | the service starts on the given roles and role-menu relations |
| Menus.AdminString | core/service/src/main/java/com/wansenai/service/system/impl/SysMenuServiceImpl.java:76-80 | the evidently intended read of the administrator's grant: when not empty, it is the menu string of a relation row of role 0. The service reads by the row's key instead (`AdminStringAsWritten`) |
| Menus.AdminReadsAgree | core/service/src/main/java/com/wansenai/service/system/impl/SysMenuServiceImpl.java:76-80 | when role 0's only relation row is the row keyed 0, the read by key and the read by role both give that row's grant |
| Menus.StringsOfMember | core/service/src/main/java/com/wansenai/service/system/impl/SysMenuServiceImpl.java:156-159 | every relation string collected for a role comes from a row of that role |
| Menus.AppendGrantsOneMore | core/service/src/main/java/com/wansenai/service/system/impl/SysMenuServiceImpl.java:77-81 | appending `[id]` to a well-ended grant string adds exactly that id to the ids it decodes to, and keeps it well ended |
| Menus.MenuIdStringWellEnded | core/service/src/main/java/com/wansenai/service/system/impl/SysMenuServiceImpl.java:77-81 | every grant string written ends outside a digit run, so a later append cannot merge into its last id |
| Menus.AdminGrantLostAsWritten | core/service/src/main/java/com/wansenai/service/system/impl/SysMenuServiceImpl.java:76-86 | reading the grant by the relation row's own key 0 drops the administrator's earlier grant once that row has another key: adding menu 7 writes `[7]`, not `[1][7]` |
| Menus.FirstOccurrencesSpec | core/service/src/main/java/com/wansenai/service/system/impl/SysMenuServiceImpl.java:169 | `distinct` keeps each menu number exactly once and adds none |
| Menus.MenuNumbersSpec | core/service/src/main/java/com/wansenai/service/system/impl/SysMenuServiceImpl.java:158-170 | the menu numbers are exactly the digit runs of the user's relation strings, each once |
| Menus.GrantedViewsSpec | core/service/src/main/java/com/wansenai/service/system/impl/SysMenuServiceImpl.java:172-204 | the views collected are exactly the live menus whose id is granted, each as stored, in ascending id order |
| Menus.Insert | core/service/src/main/java/com/wansenai/service/system/impl/SysMenuServiceImpl.java:206 | one insertion keeps the views as a multiset plus the new one |
| Menus.SortedLast | core/service/src/main/java/com/wansenai/service/system/impl/SysMenuServiceImpl.java:206 | in a sorted list no view sorts after the last one |
| Menus.AppendSorted | core/service/src/main/java/com/wansenai/service/system/impl/SysMenuServiceImpl.java:206 | a sorted list with a view after all of it stays sorted |
| Menus.InsertSorted | core/service/src/main/java/com/wansenai/service/system/impl/SysMenuServiceImpl.java:206 | inserting a view with a larger id than all others into a sorted list keeps it sorted by sort, then id |
| Menus.SortBySortPermutes | core/service/src/main/java/com/wansenai/service/system/impl/SysMenuServiceImpl.java:206 | the sort is a permutation of the views |
| Menus.SortBySortSorted | core/service/src/main/java/com/wansenai/service/system/impl/SysMenuServiceImpl.java:206 | views listed in id order come out ordered by sort and, for equal sorts, by id, as a stable sort gives |
| Menus.SortBySortSpec | core/service/src/main/java/com/wansenai/service/system/impl/SysMenuServiceImpl.java:206 | the sort is a stable permutation of views listed in id order |
| Menus.MenuListShows | core/service/src/main/java/com/wansenai/service/system/impl/SysMenuServiceImpl.java:172-210 | `menuList` lists each granted live menu once, ordered by sort and then id, and `total` is the number listed |
| Menus.AddMenuExtendsAdminGrant | core/service/src/main/java/com/wansenai/service/system/impl/SysMenuServiceImpl.java:76-86 | with role 0's own grant read, adding a menu extends every row of role 0 by exactly the new id and leaves other roles' rows alone |
| Menus.AddMenuExtendsAdminGrantAsWritten | core/service/src/main/java/com/wansenai/service/system/impl/SysMenuServiceImpl.java:76-86 | when role 0's only relation row is keyed 0, the code's add extends role 0's menu ids by exactly the new id and leaves every other row alone |
| Menus.MenuService.constructor | core/service/src/main/java/com/wansenai/service/system/impl/SysMenuServiceImpl.java:36-46 | the service starts on the given menu and relation tables |
| Menus.MenuService.AddOrSaveMenu | core/service/src/main/java/com/wansenai/service/system/impl/SysMenuServiceImpl.java:50-120 | a null request answers PARAMETER_NULL; a new menu is inserted under the fresh id, and the grant read by key 0 (`getById(0L)`), extended by the new id, is written to every role-0 row, with success exactly when role 0 has a row; an update overwrites every column and succeeds exactly when the menu exists |
| Menus.MenuService.DeleteMenu | core/service/src/main/java/com/wansenai/service/system/impl/SysMenuServiceImpl.java:123-138 | a null id answers PARAMETER_NULL; otherwise the menu is only flagged deleted, with success exactly when it exists |
| Menus.MenuService.MenuList | core/service/src/main/java/com/wansenai/service/system/impl/SysMenuServiceImpl.java:141-215 | no signed-in user fails; no roles or no relation strings answers an empty object; otherwise the answer is the granted live menus sorted by sort |
| Menus.CollectViews | core/service/src/main/java/com/wansenai/service/system/impl/SysMenuServiceImpl.java:178-204 | the loop collects exactly the granted live views in key order |
| Menus.SortViews | core/service/src/main/java/com/wansenai/service/system/impl/SysMenuServiceImpl.java:206 | the insertion loop computes exactly the stable sort |
| Decimals.CompareToZero | core/service/src/main/java/com/wansenai/service/basic/impl/MemberServiceImpl.java:275 | comparing with zero is positive exactly for a positive amount and negative exactly for a negative one, whatever the scale |
| Decimals.SameValueAt | core/service/src/main/java/com/wansenai/service/receipt/impl/ReceiptPurchaseServiceImpl.java:1879 | `compareTo` compares numeric values: read at any common scale, equal and less-than agree with the units |
| Decimals.Abs | core/domain/src/main/java/com/wansenai/bo/BigDecimalSerializerBO.java:23 | `abs` keeps the scale and gives the magnitude |
| Decimals.AddValue | core/service/src/main/java/com/wansenai/service/receipt/impl/ReceiptPurchaseServiceImpl.java:106-111 | `add` is exact: at any common scale the units add up |
| Decimals.SubtractValue | core/service/src/main/java/com/wansenai/service/receipt/impl/ReceiptPurchaseServiceImpl.java:1878 | `subtract` is exact: at any common scale the units subtract |
| Decimals.SubtractIsAddNegate | api/src/main/java/com/wansensoft/api/account/AccountItemController.java:76 | subtracting from zero is negating, so subtracting is adding the negation |
| Decimals.AddThenSubtract | core/service/src/main/java/com/wansenai/service/receipt/impl/ReceiptPurchaseServiceImpl.java:1069-1082 | adding an amount and subtracting it again gives back the same value |
| Decimals.SumValue | core/service/src/main/java/com/wansenai/service/receipt/impl/ReceiptPurchaseServiceImpl.java:106-111 | `reduce(ZERO, add)` is the exact sum of the amounts |
| Decimals.NonNullSum | core/service/src/main/java/com/wansenai/service/receipt/impl/ReceiptPurchaseServiceImpl.java:221-226 | filtering out null amounts before the sum is the same as reading them as zero |
| Decimals.SetScaleExact | core/service/src/main/java/com/wansenai/service/receipt/impl/ReceiptPurchaseServiceImpl.java:110 | `setScale` to the same or a larger scale keeps the value, and to the same scale returns the amount unchanged |
| Decimals.SetScaleHalfUpNearest | core/service/src/main/java/com/wansenai/service/product/impl/ProductUnitServiceImpl.java:95 | HALF_UP rounding keeps the sign and lands within half a unit of the last kept place, a tie going away from zero |
| Decimals.SetScaleIdempotent | core/domain/src/main/java/com/wansenai/bo/BigDecimalSerializerBO.java:24 | rounding an already rounded amount to the same scale changes nothing |
| Decimals.StripTrailingZerosWhole | core/service/src/main/java/com/wansenai/service/product/impl/ProductUnitServiceImpl.java:96 | `stripTrailingZeros().scale() <= 0` holds exactly for whole values, and stripping keeps the value |
| Decimals.ToBigIntegerOfWhole | core/service/src/main/java/com/wansenai/service/product/impl/ProductUnitServiceImpl.java:97 | the integer part of a whole value is the value |
| Decimals.ToStringOfInteger | core/service/src/main/java/com/wansenai/service/product/impl/ProductUnitServiceImpl.java:97 | an integer at scale 0 prints as `Long.toString` does |
| Decimals.IntToStringHasNoPoint | core/service/src/main/java/com/wansenai/service/product/impl/ProductUnitServiceImpl.java:97 | the integer rendering has no decimal point |
| Decimals.ToStringPlainParts | core/service/src/main/java/com/wansenai/service/product/impl/ProductUnitServiceImpl.java:98 | at a scale from 1 to 6 `toString` prints an optional minus sign, integer digits, a point and exactly `scale` fraction digits that together spell the magnitude |
| Text.HasTextImpliesHasLength | core/service/src/main/java/com/wansenai/service/role/impl/SysRoleServiceImpl.java:134 | `hasText` implies `hasLength`; a string with length but no text is blank |
| Text.IntToStringChars | core/service/src/main/java/com/wansenai/service/receipt/impl/ReceiptPurchaseServiceImpl.java:167-169 | `String.valueOf(long)` writes only digits and a leading minus sign |
| Text.DigitsValueOfNatToString | core/service/src/main/java/com/wansenai/service/receipt/impl/ReceiptPurchaseServiceImpl.java:167-169 | the digits written for a number denote that number |
| Text.ParseOfIntToString | core/service/src/main/java/com/wansenai/service/receipt/impl/ReceiptPurchaseServiceImpl.java:664-671 | `parseLong` reads back exactly what `String.valueOf` wrote |
| Text.SplitJoin | core/service/src/main/java/com/wansenai/service/receipt/impl/ReceiptPurchaseServiceImpl.java:668 | splitting on the separator undoes joining with it when no piece contains it |
| Text.JoinSplit | core/service/src/main/java/com/wansenai/service/receipt/impl/ReceiptPurchaseServiceImpl.java:668 | joining the pieces of a split with the separator gives back the string |
| Text.JavaSplitJoin | core/service/src/main/java/com/wansenai/service/receipt/impl/ReceiptPurchaseServiceImpl.java:668 | Java's `split` undoes joining when in addition no piece is empty |
| Text.DigitRunsAppend | core/service/src/main/java/com/wansenai/service/role/impl/SysRoleServiceImpl.java:113-116 | the digit runs of two strings, the first ending in a non-digit, are the runs of each |
| Text.DigitRunsOfDigits | core/service/src/main/java/com/wansenai/service/role/impl/SysRoleServiceImpl.java:113-116 | a digit string is one whole run |
| JavaInts.WrapAdd | core/service/src/main/java/com/wansenai/service/receipt/impl/ReceiptPurchaseServiceImpl.java:113-117 | wrapping after every `int` addition or once at the end gives the same `int` |
| JavaInts.SubThenAdd32 | core/service/src/main/java/com/wansenai/service/receipt/impl/ReceiptPurchaseServiceImpl.java:246-258 | subtracting and then adding back the same amount restores an `int`, overflow or not |
| QuarterTotals.CalculateTotalAccount | core/service/src/main/java/com/wansenai/service/basic/impl/SupplierServiceImpl.java:131-136 | the total always has scale 3 |
| QuarterTotals.TotalAccountExact | core/service/src/main/java/com/wansenai/service/basic/impl/SupplierServiceImpl.java:131-136 | for amounts of at most three decimals the total is exact, a null quarter counting as nothing |
| QuarterTotals.AllNullTotalIsZero | core/service/src/main/java/com/wansenai/service/basic/impl/SupplierServiceImpl.java:131-136 | a list with no amount totals `0.000` |
| QuarterTotals.ListOf | core/service/src/main/java/com/wansenai/service/basic/impl/SupplierServiceImpl.java:152-157 | `List.of` succeeds exactly when no element is null, and then lists them all |
| QuarterTotals.ListOfDefeatsNullFilter | core/service/src/main/java/com/wansenai/service/basic/impl/SupplierServiceImpl.java:152-157 | one null quarter makes the total throw before the null filter can act |
| QuarterTotals.OneQuarterCounterexample | core/service/src/main/java/com/wansenai/service/basic/impl/SupplierServiceImpl.java:152-157 | a first quarter of 5 and three nulls throws as written where `5.000` is intended |
| QuarterTotals.ListOfAgreesWithoutNulls | core/service/src/main/java/com/wansenai/service/basic/impl/SupplierServiceImpl.java:152-157 | without nulls the total as written is the intended one |
| QuarterTotals.TotalOfListOf | core/service/src/main/java/com/wansenai/service/basic/impl/SupplierServiceImpl.java:152-157 | the total through `List.of` is computed exactly when every quarter is given, and then it is the intended total, with scale 3 |
| QuarterTotals.QuarterTotal | core/service/src/main/java/com/wansenai/service/basic/impl/SupplierServiceImpl.java:131-136 | the intended total has scale 3 and, for amounts of at most three decimals, is the exact sum of the non-null quarters |
| Tables.AscendingKeys | core/service/src/main/java/com/wansenai/service/role/impl/SysRoleServiceImpl.java:54-59 | a plain query returns every key of the table once, in ascending order |
| Tables.PagingOf | core/service/src/main/java/com/wansenai/service/role/impl/SysRoleServiceImpl.java:72-75 | a missing page number reads as page 1 and a missing size as 10; given ones are kept |
| Tables.BatchInserted | core/service/src/main/java/com/wansenai/service/receipt/impl/ReceiptPurchaseServiceImpl.java:1066 | `saveBatch` adds one row under each id and keeps every other row |
| Tables.PageSlice | core/service/src/main/java/com/wansenai/service/basic/impl/SupplierServiceImpl.java:88 | `selectPage` returns at most `size` rows, the window of the ordered result that starts at the page's offset, empty exactly when the size is zero or the offset is past the end |
| Tables.PageOffset | core/service/src/main/java/com/wansenai/service/basic/impl/SupplierServiceImpl.java:59-62 | pages count from 1, and a page number below 1 reads as the first |
| Decimals.Negate | api/src/main/java/com/wansensoft/api/account/AccountItemController.java:74 | negation keeps the scale and flips the sign of the unscaled value |
| JavaInts.Wrap | core/service/src/main/java/com/wansenai/service/receipt/impl/ReceiptPurchaseServiceImpl.java:113-117 | the wrapped value is a 32-bit `int` congruent to the exact one modulo 2^32 |
| Text.IndexOf | core/service/src/main/java/com/wansenai/service/receipt/impl/ReceiptPurchaseServiceImpl.java:668 | the index is that of the first occurrence of the character, or the length when there is none |
| Text.JavaSplit | core/service/src/main/java/com/wansenai/service/receipt/impl/ReceiptPurchaseServiceImpl.java:668 | no piece of Java's `split` contains the separator |
| Text.IntToString | core/service/src/main/java/com/wansenai/service/receipt/impl/ReceiptPurchaseServiceImpl.java:167-169 | the text is a run of digits, preceded by a minus sign for a negative number |
| Text.ParseLong | core/service/src/main/java/com/wansenai/service/receipt/impl/ReceiptPurchaseServiceImpl.java:664-671 | `Long.parseLong` only ever yields a 64-bit value |
| Products.GetStringValue | core/service/src/main/java/com/wansenai/service/product/impl/ProductServiceImpl.java:81-85 | the cleaned value is null exactly when the text is null or trims to nothing, and is otherwise the text itself |
| Products.GetStringValueIdempotent | core/service/src/main/java/com/wansenai/service/product/impl/ProductServiceImpl.java:81-85 | cleaning twice is cleaning once |
| Products.TrimIsNotHasText | core/service/src/main/java/com/wansenai/service/product/impl/ProductServiceImpl.java:81-85 | `trim` and `hasText` disagree at both ends: an ideographic space is kept though it has no text, a NUL is cleared though `hasText` sees text |
| Products.BarCodes | core/service/src/main/java/com/wansenai/service/product/impl/ProductServiceImpl.java:110-113 | the barcodes checked are exactly the non-null barcodes of the price rows |
| Products.DistinctCountBound | core/service/src/main/java/com/wansenai/service/product/impl/ProductServiceImpl.java:120-122 | the distinct count never exceeds the list size |
| Products.RepeatsIffDuplicate | core/service/src/main/java/com/wansenai/service/product/impl/ProductServiceImpl.java:120-122 | `distinct().count() != size()` holds exactly when some barcode occurs twice |
| Products.Refusal | core/service/src/main/java/com/wansenai/service/product/impl/ProductServiceImpl.java:103-139 | the request is refused with PARAMETER_NULL when nothing was given, then with NOT_DUPLICATED for a barcode repeated in the request, then with EXIST for a barcode stored under another product; otherwise it passes |
| Products.Built | core/service/src/main/java/com/wansenai/service/product/impl/ProductServiceImpl.java:151-181 | the row built is enabled, live, stamped as created by the user and carries the cleaned name; it fails exactly when a flag is no number |
| Products.SavedOver | core/service/src/main/java/com/wansenai/service/product/impl/ProductServiceImpl.java:182 | `saveOrUpdate` inserts a new row and, over an existing one, writes only the non-null columns; status and delete flag are always written |
| Products.SkuIds | core/service/src/main/java/com/wansenai/service/product/impl/ProductServiceImpl.java:196-197 | each price row keeps its given id or takes a fresh one |
| Products.WithoutLiveSkus | core/service/src/main/java/com/wansenai/service/product/impl/ProductServiceImpl.java:184-194 | exactly the product's live price rows are removed; every other row is kept |
| Products.InsertedSkus | core/service/src/main/java/com/wansenai/service/product/impl/ProductServiceImpl.java:195-240 | the new price rows are inserted under their ids for the product, and every other row is kept |
| Products.AddedSkus | core/service/src/main/java/com/wansenai/service/product/impl/ProductServiceImpl.java:195-240 | the new price rows, by id, each as the request gives it |
| Products.SaveKeepsBarCodesUnique | core/service/src/main/java/com/wansenai/service/product/impl/ProductServiceImpl.java:108-240 | a save that passes the checks keeps every barcode on one product only |
| Products.SavedBarCodeBlocksOthers | core/service/src/main/java/com/wansenai/service/product/impl/ProductServiceImpl.java:115-129 | once saved, a barcode refuses every other product's request that carries it |
| Products.LiveSkuKeys | core/service/src/main/java/com/wansenai/service/product/impl/ProductServiceImpl.java:339-345 | the keys listed are exactly the product's live price rows |
| Products.CurrentStocks | core/service/src/main/java/com/wansenai/service/product/impl/ProductServiceImpl.java:356-359 | one quantity per live stock row of the SKU |
| Products.StockOf | core/service/src/main/java/com/wansenai/service/product/impl/ProductServiceImpl.java:355-366 | the stock is null exactly when the SKU has no live stock row |
| Products.StockOfIsSum | core/service/src/main/java/com/wansenai/service/product/impl/ProductServiceImpl.java:355-366 | the listed stock is the exact sum of the SKU's live quantities, a null quantity counting as nothing |
| Products.ProductService.constructor | core/service/src/main/java/com/wansenai/service/product/impl/ProductServiceImpl.java:71-79 | the service starts on the given product, price and stock tables |
| Products.ProductService.AddOrUpdateProduct | core/service/src/main/java/com/wansenai/service/product/impl/ProductServiceImpl.java:102-297 | a refused request changes nothing; otherwise the product is saved under the given or a fresh id, its live price rows are replaced by the request's, success is reported exactly when both batches were non-empty, and a bad flag or a taken price id throws and changes nothing |
| Products.ProductService.ViewOf | core/service/src/main/java/com/wansenai/service/product/impl/ProductServiceImpl.java:336-368 | the row shows the barcode of the product's first live price row and that row's stock, both null without one |
| Products.ProductService.ProductInfo | core/service/src/main/java/com/wansenai/service/product/impl/ProductServiceImpl.java:300-374 | one view per product of the page, in page order |
| Products.ProductService.GetProductInfoDetail | core/service/src/main/java/com/wansenai/service/product/impl/ProductServiceImpl.java:378-444 | a null id is PARAMETER_NULL, a missing product QUERY_DATA_EMPTY; otherwise the product with exactly its live price rows in key order |
| Products.ProductService.DeleteProduct | core/service/src/main/java/com/wansenai/service/product/impl/ProductServiceImpl.java:449-500 | null or empty ids change nothing; otherwise the products, their live price rows and those rows' live stock rows are removed, and success is reported exactly when a product row existed |
| Products.ProductService.UpdateProductStatus | core/service/src/main/java/com/wansenai/service/product/impl/ProductServiceImpl.java:504-527 | null or empty ids or a null status change nothing; otherwise exactly the live listed products take the status, with success exactly when one matched |
| ProductAttributes.SaveKeepsNamesUnique | core/service/src/main/java/com/wansenai/service/product/impl/ProductAttributeServiceImpl.java:79-140 | a save that passes the name check, insert or update, keeps live attribute names unique |
| ProductAttributes.ResaveIsNoConflict | core/service/src/main/java/com/wansenai/service/product/impl/ProductAttributeServiceImpl.java:116-123 | saving an attribute again under its own name is no conflict |
| ProductAttributes.TakenNameBlocks | core/service/src/main/java/com/wansenai/service/product/impl/ProductAttributeServiceImpl.java:86-123 | a name held by a live attribute refuses every other row, on insert and on update |
| ProductAttributes.Matching | core/service/src/main/java/com/wansenai/service/product/impl/ProductAttributeServiceImpl.java:46-60 | the list selects exactly the live attributes whose name contains the filter, all live ones without a filter |
| ProductAttributes.Named | core/service/src/main/java/com/wansenai/service/product/impl/ProductAttributeServiceImpl.java:199-204 | one entry per value, in order, each carrying the attribute's name |
| ProductAttributes.AttributeService.constructor | core/service/src/main/java/com/wansenai/service/product/impl/ProductAttributeServiceImpl.java:36-43 | the service starts on the given attribute table |
| ProductAttributes.AttributeService.AddOrUpdateProductAttribute | core/service/src/main/java/com/wansenai/service/product/impl/ProductAttributeServiceImpl.java:79-140 | a null request is PARAMETER_NULL; a name held by another live attribute is NAME_EXIST and writes nothing; otherwise the row is inserted or its non-null columns updated, and an update of a missing row is an error |
| ProductAttributes.AttributeService.BatchDeleteProductAttribute | core/service/src/main/java/com/wansenai/service/product/impl/ProductAttributeServiceImpl.java:162-181 | a null or empty list changes nothing; otherwise the rows are removed outright, and removing none is an error |
| ProductAttributes.AttributeService.GetAttributeValuesById | core/service/src/main/java/com/wansenai/service/product/impl/ProductAttributeServiceImpl.java:184-205 | nothing for a null id, a missing row or a null or empty value; otherwise one entry per piece of Java's `split` on the pipe character, each named with the attribute's name |
| ProductAttributes.AttributeService.ProductAttributeList | core/service/src/main/java/com/wansenai/service/product/impl/ProductAttributeServiceImpl.java:46-75 | the answer is the SUCCESS envelope of one page of the list: the live attributes the name filter matches, newest first, cut by page number and size, a null query paging from 1 by 10 |
| ProductAttributes.AttributePage | core/service/src/main/java/com/wansenai/service/product/impl/ProductAttributeServiceImpl.java:46-69 | the page is the window of the ordered ids that the page number and size pick, each shown with its stored attribute; every id on it matches the name filter, none appears twice, and they run newest first |
| ProductAttributes.PageOfListOrder | core/service/src/main/java/com/wansenai/service/product/impl/ProductAttributeServiceImpl.java:53-60 | a page cut from the matching live rows, listed newest first, again holds only matching rows, none twice, newest first |
| ProductAttributes.ValuesRoundTrip | core/service/src/main/java/com/wansenai/service/product/impl/ProductAttributeServiceImpl.java:184-205 | values stored as a pipe-separated join of non-empty pieces come back as exactly those pieces |
| ProductAttributes.JoinNonEmpty | core/service/src/main/java/com/wansenai/service/product/impl/ProductAttributeServiceImpl.java:193-195 | a join whose first piece is non-empty is not empty, so the empty-value guard does not fire |
| ProductAttributesKt.KtAttributeService.constructor | core/service/src/main/kotlin/com/wansenai/service/product/impl/ProductAttributeServiceImpl.kt:37-41 | the service starts on the given attribute table |
| ProductAttributesKt.KtAttributeService.ProductAttributeList | core/service/src/main/kotlin/com/wansenai/service/product/impl/ProductAttributeServiceImpl.kt:43-67 | a null query answers SUCCESS with an empty page; otherwise it is the same page of matching live attributes, newest first, as the Java service |
| ProductAttributesKt.KtAttributeService.BatchDeleteProductAttribute | core/service/src/main/kotlin/com/wansenai/service/product/impl/ProductAttributeServiceImpl.kt:141-157 | only a null list is refused; an empty list reaches the delete, removes nothing and answers the error |
| ProductAttributesKt.KtAttributeService.GetAttributeValuesById | core/service/src/main/kotlin/com/wansenai/service/product/impl/ProductAttributeServiceImpl.kt:159-172 | nothing for a null id, a missing row or a null value; otherwise Kotlin's split, whose pieces joined with pipes give back the stored text |
| ProductAttributesKt.EmptyValueDiffers | core/service/src/main/kotlin/com/wansenai/service/product/impl/ProductAttributeServiceImpl.kt:159-172 | on an empty value the Java service gives no entry and the Kotlin one a single empty entry |
| ProductAttributesKt.TrailingPipeDiffers | core/service/src/main/kotlin/com/wansenai/service/product/impl/ProductAttributeServiceImpl.kt:159-172 | a trailing pipe is dropped by the Java service and kept as an empty value by the Kotlin one |
| ProductAttributesKt.SplitsOfTrailingPipe | core/service/src/main/kotlin/com/wansenai/service/product/impl/ProductAttributeServiceImpl.kt:163 | Kotlin's split of a value ending in a pipe keeps the empty piece; Java's drops it |
| ProductCategories.ViewOf | core/service/src/main/java/com/wansenai/service/product/impl/ProductCategoryServiceImpl.java:50-63 | each list row carries the category and, exactly when the parent row exists, the parent's name |
| ProductCategories.PartialUpdateProperties | core/service/src/main/java/com/wansenai/service/product/impl/ProductCategoryServiceImpl.java:108-130 | an update naming no column only restamps the row; applying it twice is applying it once; the delete flag, tenant and creation time are never touched |
| ProductCategories.SoftDeleted | core/service/src/main/java/com/wansenai/service/product/impl/ProductCategoryServiceImpl.java:151-155 | exactly the listed rows take the deleted flag; no row is removed |
| ProductCategories.OneByName | core/service/src/main/java/com/wansenai/service/product/impl/ProductCategoryServiceImpl.java:176-178 | the name lookup finds the one row of that name, deleted or not; it is null exactly when no row has the name, and it throws only when two do |
| ProductCategories.CategoryService.constructor | core/service/src/main/java/com/wansenai/service/product/impl/ProductCategoryServiceImpl.java:40-42 | the service starts on the given category table |
| ProductCategories.CategoryService.ProductCategoryList | core/service/src/main/java/com/wansenai/service/product/impl/ProductCategoryServiceImpl.java:45-69 | one row per live category, in the query's newest-first order, each with its parent's name |
| ProductCategories.CategoryService.AddOrUpdateProductCategory | core/service/src/main/java/com/wansenai/service/product/impl/ProductCategoryServiceImpl.java:72-144 | a null request is PARAMETER_NULL; without an id a category is created with sort 0; with one the row gets the partial update, and a missing row is an error; no name is checked for uniqueness |
| ProductCategories.CategoryService.DeleteProductCategory | core/service/src/main/java/com/wansenai/service/product/impl/ProductCategoryServiceImpl.java:147-169 | a null or empty list changes nothing; otherwise exactly the listed rows are flagged deleted |
| ProductCategories.CategoryService.GetProductCategoryByName | core/service/src/main/java/com/wansenai/service/product/impl/ProductCategoryServiceImpl.java:172-179 | a null or empty name gives an empty category; any other name is looked up exactly |
| ProductCategories.DeletedLeavesList | core/service/src/main/java/com/wansenai/service/product/impl/ProductCategoryServiceImpl.java:45-69 | a deleted category no longer appears in the list |
| ProductCategories.LookupFindsUniqueName | core/service/src/main/java/com/wansenai/service/product/impl/ProductCategoryServiceImpl.java:176-178 | a name carried by exactly one row is always found, as that row |
| ProductCategoriesKt.CreatedKt | core/service/src/main/kotlin/com/wansenai/service/product/impl/ProductCategoryServiceImpl.kt:66-78 | a created category is the Java one except that its sort is passed through, null included |
| ProductCategoriesKt.KtCategoryService.constructor | core/service/src/main/kotlin/com/wansenai/service/product/impl/ProductCategoryServiceImpl.kt:33-35 | the service starts on the given category table |
| ProductCategoriesKt.KtCategoryService.ProductCategoryList | core/service/src/main/kotlin/com/wansenai/service/product/impl/ProductCategoryServiceImpl.kt:37-58 | the Java list, except that it throws exactly when some listed category's parent row is missing |
| ProductCategoriesKt.KtCategoryService.AddOrUpdateProductCategory | core/service/src/main/kotlin/com/wansenai/service/product/impl/ProductCategoryServiceImpl.kt:60-118 | without an id a category is created with its sort as given; with one the row gets the Java partial update, and a missing row is an error |
| ProductCategoriesKt.KtCategoryService.GetProductCategoryByName | core/service/src/main/kotlin/com/wansenai/service/product/impl/ProductCategoryServiceImpl.kt:144-152 | a name with length gives the empty category; a null or empty name is looked up, and finding nothing fails the non-null return type |
| ProductCategoriesKt.NameGuardInverted | core/service/src/main/kotlin/com/wansenai/service/product/impl/ProductCategoryServiceImpl.kt:144-152 | on every name exactly one of the two variants answers the empty category, and wherever the Java one looks a name up the Kotlin one does not |
| ProductUnits.OptionalSegment | core/service/src/main/java/com/wansenai/service/product/impl/ProductUnitServiceImpl.java:200-213 | a second or third segment is written exactly when its unit is given |
| ProductUnits.ComputeUnitShape | core/service/src/main/java/com/wansenai/service/product/impl/ProductUnitServiceImpl.java:187-216 | the compute unit starts with the basic unit and its first segment, and giving a second or third unit always lengthens it |
| ProductUnits.FormatBigDecimal | core/service/src/main/java/com/wansenai/service/product/impl/ProductUnitServiceImpl.java:90-101 | the text is null exactly when the ratio is |
| ProductUnits.FormatRatioWhole | core/service/src/main/java/com/wansenai/service/product/impl/ProductUnitServiceImpl.java:95-97 | a ratio that rounds to a whole number at three places prints as that integer, without a point |
| ProductUnits.FormatRatioFraction | core/service/src/main/java/com/wansenai/service/product/impl/ProductUnitServiceImpl.java:95-98 | any other ratio prints with exactly three digits after the point, which with the digits before it spell the rounded value |
| ProductUnits.SaveKeepsComputeUnitsUnique | core/service/src/main/java/com/wansenai/service/product/impl/ProductUnitServiceImpl.java:104-160 | a save that passes the uniqueness check keeps compute units unique among live units |
| ProductUnits.ResaveIsNoConflict | core/service/src/main/java/com/wansenai/service/product/impl/ProductUnitServiceImpl.java:109-118 | saving a unit again with its own compute unit is no conflict |
| ProductUnits.UnitService.constructor | core/service/src/main/java/com/wansenai/service/product/impl/ProductUnitServiceImpl.java:35-38 | the service starts on the given unit table |
| ProductUnits.UnitService.SaveOrUpdate | core/service/src/main/java/com/wansenai/service/product/impl/ProductUnitServiceImpl.java:128 | `saveOrUpdate` writes the row under its id, merging over a stored one, and reports it written |
| ProductUnits.UnitService.AddOrUpdateProductUnit | core/service/src/main/java/com/wansenai/service/product/impl/ProductUnitServiceImpl.java:104-160 | a null request is PARAMETER_NULL; a compute unit held by another live unit is COMPUTE_UNIT_EXIST and writes nothing; otherwise the unit is saved under its own or a fresh id |
| ProductUnits.UnitService.DeleteProductUnit | core/service/src/main/java/com/wansenai/service/product/impl/ProductUnitServiceImpl.java:219-238 | a null or empty list changes nothing; otherwise the rows are removed, and removing none is an error |
| ProductUnits.UnitService.UpdateUnitStatus | core/service/src/main/java/com/wansenai/service/product/impl/ProductUnitServiceImpl.java:241-266 | a null request changes nothing; otherwise the row with that id takes the status, and matching no row is an error |
| Departments.ChildViewsSpec | core/service/src/main/java/com/wansenai/service/system/impl/SysDepartmentServiceImpl.java:135-150 | the children listed are exactly the live departments under the parent, each once, in key order |
| Departments.NodeFor | core/service/src/main/java/com/wansenai/service/system/impl/SysDepartmentServiceImpl.java:79-157 | each department of the order contributes at most one node |
| Departments.AssembledSound | core/service/src/main/java/com/wansenai/service/system/impl/SysDepartmentServiceImpl.java:74-161 | every node of the result comes from one department of the order |
| Departments.AssembledComplete | core/service/src/main/java/com/wansenai/service/system/impl/SysDepartmentServiceImpl.java:74-161 | every department of the order contributes its node to the result |
| Departments.TreeNodeIsTreeNode | core/service/src/main/java/com/wansenai/service/system/impl/SysDepartmentServiceImpl.java:120-157 | a department makes a node exactly when it has no parent, and that node holds exactly its live children |
| Departments.TreeShape | core/service/src/main/java/com/wansenai/service/system/impl/SysDepartmentServiceImpl.java:120-157 | without a name filter the tree holds exactly the top-level departments of the order, each with all its live children |
| Departments.FilteredShape | core/service/src/main/java/com/wansenai/service/system/impl/SysDepartmentServiceImpl.java:79-118 | with a name filter every node is a live parent holding exactly one department of the order, and each department with a live parent gives one |
| Departments.ChildrenOf | core/service/src/main/java/com/wansenai/service/system/impl/SysDepartmentServiceImpl.java:135-150 | the loop over the children query builds exactly the live children in key order |
| Departments.AssembleNodes | core/service/src/main/java/com/wansenai/service/system/impl/SysDepartmentServiceImpl.java:74-161 | the loop over the departments builds exactly the assembled nodes |
| Departments.UserDeptIds | core/service/src/main/java/com/wansenai/service/system/impl/SysDepartmentServiceImpl.java:45-50 | the departments a user belongs to are exactly those of the user's relation rows |
| Departments.Created | core/service/src/main/java/com/wansenai/service/system/impl/SysDepartmentServiceImpl.java:191-203 | a created department is live and its name doubles as its number |
| Departments.PartialUpdateProperties | core/service/src/main/java/com/wansenai/service/system/impl/SysDepartmentServiceImpl.java:229-254 | blank text and absent values leave their columns alone, the same update applied twice is applied once, and the delete flag and creation time never change |
| Departments.DeletedById | core/service/src/main/java/com/wansenai/service/system/impl/SysDepartmentServiceImpl.java:278-281 | exactly the department the id text names is flagged deleted; no row is removed |
| Departments.DeletedLeavesTree | core/service/src/main/java/com/wansenai/service/system/impl/SysDepartmentServiceImpl.java:278-281 | a deleted department drops out of every node's children, and every other child keeps its place |
| Departments.CreatedJoinsParent | core/service/src/main/java/com/wansenai/service/system/impl/SysDepartmentServiceImpl.java:191-216 | after a create, the new department is listed among its parent's children |
| Departments.DepartmentService.constructor | core/service/src/main/java/com/wansenai/service/system/impl/SysDepartmentServiceImpl.java:33-40 | the service starts on the given department and membership tables |
| Departments.DepartmentService.AssemblePcNodesList | core/service/src/main/java/com/wansenai/service/system/impl/SysDepartmentServiceImpl.java:74-161 | a non-null name selects the filtered shape, a null one the tree |
| Departments.DepartmentService.UserDept | core/service/src/main/java/com/wansenai/service/system/impl/SysDepartmentServiceImpl.java:43-63 | the tree of the user's live departments, or QUERY_DATA_EMPTY when there are none |
| Departments.DepartmentService.GetDeptList | core/service/src/main/java/com/wansenai/service/system/impl/SysDepartmentServiceImpl.java:164-180 | the tenant's departments in the query's order, as a tree or, when a name is given, as parent and child pairs |
| Departments.DepartmentService.AddOrSaveDept | core/service/src/main/java/com/wansenai/service/system/impl/SysDepartmentServiceImpl.java:183-270 | a null request is PARAMETER_NULL; a create inserts the department and makes the creating user a member; an update writes the partial update, and a missing row is an error |
| Departments.DepartmentService.DeleteDept | core/service/src/main/java/com/wansenai/service/system/impl/SysDepartmentServiceImpl.java:273-295 | a null or blank id is PARAMETER_NULL; otherwise the department is only flagged deleted, with success exactly when it existed |
| Warehouses.DefaultMovedIsTheOnlyDefault | core/service/src/main/java/com/wansenai/service/warehouse/impl/WarehouseServiceImpl.java:104-120 | moving the default keeps every warehouse, leaves at most the target as live default, and exactly the target when it is live |
| Warehouses.SaveKeepsAtMostOneDefault | core/service/src/main/java/com/wansenai/service/warehouse/impl/WarehouseServiceImpl.java:124-158 | a save never makes a second live default |
| Warehouses.SaveAsDefaultIsTheDefault | core/service/src/main/java/com/wansenai/service/warehouse/impl/WarehouseServiceImpl.java:154-158 | a request to be the default leaves the saved warehouse, when live, the one live default |
| Warehouses.DeleteAndStatusKeepDefaults | core/service/src/main/java/com/wansenai/service/warehouse/impl/WarehouseServiceImpl.java:180-243 | deleting warehouses drops only their own default mark, and changing status leaves the live defaults alone |
| Warehouses.WarehouseByName | core/service/src/main/java/com/wansenai/service/warehouse/impl/WarehouseServiceImpl.java:246-257 | a warehouse found is live and carries the name; an empty answer for a non-empty name means no live warehouse has it; several throw |
| Warehouses.Views | core/service/src/main/java/com/wansenai/service/warehouse/impl/WarehouseServiceImpl.java:204-216 | `list()` has no filter: every stored row, deleted or not, appears exactly once as a view of its columns, in ascending id order |
| Warehouses.WarehouseService.constructor | core/service/src/main/java/com/wansenai/service/warehouse/impl/WarehouseServiceImpl.java:38-45 | the service starts on the given warehouse table |
| Warehouses.WarehouseService.UpdateDefaultAccount | core/service/src/main/java/com/wansenai/service/warehouse/impl/WarehouseServiceImpl.java:104-120 | it throws exactly when several live defaults exist, then changing nothing; otherwise the default moves to the target |
| Warehouses.WarehouseService.AddOrUpdateWarehouse | core/service/src/main/java/com/wansenai/service/warehouse/impl/WarehouseServiceImpl.java:124-177 | a null request fails and changes nothing; otherwise the default moves first when asked, the row is saved with null price and truckage as zero, and an exception changes nothing |
| Warehouses.WarehouseService.DeleteBatch | core/service/src/main/java/com/wansenai/service/warehouse/impl/WarehouseServiceImpl.java:180-201 | a null or empty list changes nothing; otherwise the rows are removed, and removing none is an error |
| Warehouses.WarehouseService.UpdateBatchStatus | core/service/src/main/java/com/wansenai/service/warehouse/impl/WarehouseServiceImpl.java:218-243 | a null or empty list or a null status changes nothing; otherwise the listed rows take the status |
| Warehouses.WarehouseService.DefaultWarehouse | core/service/src/main/java/com/wansenai/service/warehouse/impl/WarehouseServiceImpl.java:285-310 | the live default, QUERY_DATA_EMPTY exactly when there is none, and a throw exactly when there are several |
| Warehouses.WarehouseService.WarehouseList | core/service/src/main/java/com/wansenai/service/warehouse/impl/WarehouseServiceImpl.java:260-283 | `getWarehouse` and `getWarehouseList` answer SUCCESS with no message and the views of every stored row |
| Suppliers.TaxRateOf | core/service/src/main/java/com/wansenai/service/basic/impl/SupplierServiceImpl.java:448-450 | the integer tax rate becomes a decimal of the same value with one decimal place |
| Suppliers.Entity | core/service/src/main/java/com/wansenai/service/basic/impl/SupplierServiceImpl.java:139-158 | the entity is built exactly when the request is non-null, has a tax rate and gives all four quarters (`List.of` throws on a null one); it copies the request's columns and carries the yearly total of its quarters |
| Suppliers.UpdateKeepsTotalConsistent | core/service/src/main/java/com/wansenai/service/basic/impl/SupplierServiceImpl.java:284-308 | an update that gives all four quarters leaves the stored total consistent with them |
| Suppliers.MissingQuarterThrows | core/service/src/main/java/com/wansenai/service/basic/impl/SupplierServiceImpl.java:284-308 | a request that leaves a quarter out cannot be built and so throws, as do a first quarter of 5 with three nulls and a null request; the update then writes nothing |
| Suppliers.SupplierKeyAmbiguous | core/service/src/main/java/com/wansenai/service/basic/impl/SupplierServiceImpl.java:247 | the key of name and contact joined by a pipe does not tell the columns apart: a pipe inside a column, or the text `null`, gives two different suppliers the same key |
| Suppliers.Matching | core/service/src/main/java/com/wansenai/service/basic/impl/SupplierServiceImpl.java:249-252 | the lookup selects exactly the stored suppliers with the row's name and contact; a null value matches none |
| Suppliers.Imported | core/service/src/main/java/com/wansenai/service/basic/impl/SupplierServiceImpl.java:254-271 | an imported row is built exactly when it gives all four quarters; it keeps its name, contact and quarters and gets a consistent total and the creation stamps |
| Suppliers.Imports | core/service/src/main/java/com/wansenai/service/basic/impl/SupplierServiceImpl.java:254-271 | the rows saved are the kept rows, in order, each built as above; the list is built exactly when every kept row gives all four quarters |
| Suppliers.ImportedRowsAreNew | core/service/src/main/java/com/wansenai/service/basic/impl/SupplierServiceImpl.java:241-281 | a successful import saves no two rows with the same key, none with a stored namesake, and every total consistent |
| Suppliers.NullQuarterFailsImport | core/service/src/main/java/com/wansenai/service/basic/impl/SupplierServiceImpl.java:241-281 | a row with a null quarter, no stored namesake and no earlier row with its key makes the whole import throw |
| Suppliers.SupplierService.constructor | core/service/src/main/java/com/wansenai/service/basic/impl/SupplierServiceImpl.java:52-55 | the service starts on the given supplier table |
| Suppliers.SupplierService.ViewsOf | core/service/src/main/java/com/wansenai/service/basic/impl/SupplierServiceImpl.java:96-120 | one list row per supplier, in order |
| Suppliers.SupplierService.GetSupplierPageList | core/service/src/main/java/com/wansenai/service/basic/impl/SupplierServiceImpl.java:58-129 | an empty page is QUERY_DATA_EMPTY; otherwise the page's live matching suppliers in page order |
| Suppliers.SupplierService.GetSupplierList | core/service/src/main/java/com/wansenai/service/basic/impl/SupplierServiceImpl.java:181-237 | exactly the enabled live suppliers the query matches, each once, by ascending sort |
| Suppliers.SupplierService.AddSupplier | core/service/src/main/java/com/wansenai/service/basic/impl/SupplierServiceImpl.java:139-178 | a request that cannot be built (null, a null tax rate or a null quarter) throws and changes nothing; otherwise the supplier is saved under the fresh id with a consistent total and the creation stamps, and the answer is ADD_SUPPLIER_SUCCESS |
| Suppliers.SupplierService.UpdateSupplier | core/service/src/main/java/com/wansenai/service/basic/impl/SupplierServiceImpl.java:284-323 | the request's non-null columns and the new total overwrite the stored supplier; a null or unknown id changes nothing and reports the error |
| Suppliers.SupplierService.DeleteSupplier | core/service/src/main/java/com/wansenai/service/basic/impl/SupplierServiceImpl.java:326-347 | a null or empty list changes nothing; otherwise the suppliers are removed, and removing none is an error |
| Suppliers.SupplierService.UpdateSupplierStatus | core/service/src/main/java/com/wansenai/service/basic/impl/SupplierServiceImpl.java:350-380 | a null request changes nothing; otherwise the listed suppliers take the status and the update stamps, and matching none is an error |
| Suppliers.SupplierService.BatchAddSupplier | core/service/src/main/java/com/wansenai/service/basic/impl/SupplierServiceImpl.java:241-281 | each new key is looked up once; suppliers with no stored namesake are inserted under fresh ids; a lookup that throws, or a kept row with a null quarter, throws and leaves the table unchanged; an empty batch reports false |
| Customers.ZeroFilledQuarters | core/service/src/main/java/com/wansenai/service/basic/impl/CustomerServiceImpl.java:199-202 | each null quarter becomes zero and every given one is kept |
| Customers.BuiltDefaults | core/service/src/main/java/com/wansenai/service/basic/impl/CustomerServiceImpl.java:190-222 | each column is the request's value when given and its default otherwise; no column is left null |
| Customers.BuiltTotalCountsNullAsZero | core/service/src/main/java/com/wansenai/service/basic/impl/CustomerServiceImpl.java:204-210 | the total has scale 3 and counts a null quarter as zero, and agrees with the stored quarters |
| Customers.SavedIsConsistent | core/service/src/main/java/com/wansenai/service/basic/impl/CustomerServiceImpl.java:224-232 | the row written has a consistent total; an update keeps the stored creation stamps and a create stamps them |
| Customers.SaveResponse | core/service/src/main/java/com/wansenai/service/basic/impl/CustomerServiceImpl.java:233-249 | the answer names the create or the update, and a failed save answers `fail` |
| Customers.Matching | core/service/src/main/java/com/wansenai/service/basic/impl/CustomerServiceImpl.java:313-318 | the lookup selects exactly the stored customers with the row's name and contact; a null value matches none |
| Customers.Imported | core/service/src/main/java/com/wansenai/service/basic/impl/CustomerServiceImpl.java:319-339 | an imported row is built exactly when it gives all four quarters; it keeps its name, contact and quarters, gets a consistent total and the creation stamps |
| Customers.Imports | core/service/src/main/java/com/wansenai/service/basic/impl/CustomerServiceImpl.java:319-339 | the rows saved are the kept rows, in order, each built as above; the list is built exactly when every kept row gives all four quarters |
| Customers.ImportedRowsAreNew | core/service/src/main/java/com/wansenai/service/basic/impl/CustomerServiceImpl.java:306-346 | a successful import saves no two rows with the same key, none with a stored namesake, and every total consistent |
| Customers.NullQuarterFailsImport | core/service/src/main/java/com/wansenai/service/basic/impl/CustomerServiceImpl.java:306-346 | a row with a null quarter, no stored namesake and no earlier row with its key makes the whole import throw |
| Customers.CustomerService.constructor | core/service/src/main/java/com/wansenai/service/basic/impl/CustomerServiceImpl.java:51-54 | the service starts on the given customer table |
| Customers.CustomerService.SaveOrUpdate | core/service/src/main/java/com/wansenai/service/basic/impl/CustomerServiceImpl.java:232 | `saveOrUpdate` writes the row under its id and reports it written |
| Customers.CustomerService.AddOrUpdateCustomer | core/service/src/main/java/com/wansenai/service/basic/impl/CustomerServiceImpl.java:190-250 | the request's customer, with defaults and a consistent total, is saved under a fresh id or its own, and the answer names which |
| Customers.CustomerService.DeleteCustomer | core/service/src/main/java/com/wansenai/service/basic/impl/CustomerServiceImpl.java:253-274 | a null or empty list changes nothing; otherwise the customers are removed, and removing none is an error |
| Customers.CustomerService.UpdateCustomerStatus | core/service/src/main/java/com/wansenai/service/basic/impl/CustomerServiceImpl.java:277-302 | a null or empty list or a null status changes nothing; otherwise the listed customers take the status, and matching none is an error |
| Customers.CustomerService.BatchAddCustomer | core/service/src/main/java/com/wansenai/service/basic/impl/CustomerServiceImpl.java:306-346 | each new key is looked up once; customers with no stored namesake are inserted under fresh ids; a lookup that throws, or a kept row with a null quarter, throws and leaves the table unchanged; an empty batch reports false |
| Members.SavedDefaults | core/service/src/main/java/com/wansenai/service/basic/impl/MemberServiceImpl.java:109-126 | a null phone, email or remark is saved as the empty string and a null sort as 0; an update keeps the stored name and status it does not restate; a create takes the request's status and the creation stamps |
| Members.UpdateWithoutBalanceClearsIt | core/service/src/main/java/com/wansenai/service/basic/impl/MemberServiceImpl.java:115 | an update that leaves the balance out writes a zero balance over the stored one |
| Members.SaveResponse | core/service/src/main/java/com/wansenai/service/basic/impl/MemberServiceImpl.java:128-146 | a failed save answers `fail`; a successful one names the create or the update in the user's language |
| Members.ToppedUp | core/service/src/main/java/com/wansenai/service/basic/impl/MemberServiceImpl.java:285-289 | the new balance is the stored one, null read as zero, plus the amount, exactly at every common scale, and a positive amount makes it strictly larger |
| Members.TopUpValue | core/service/src/main/java/com/wansenai/service/basic/impl/MemberServiceImpl.java:285-289 | adding an amount adds its value at every common scale, and a positive amount increases the balance |
| Members.Credited | core/service/src/main/java/com/wansenai/service/basic/impl/MemberServiceImpl.java:285-289 | only the one member changes, only in its balance, which grows by exactly the amount |
| Members.Matching | core/service/src/main/java/com/wansenai/service/basic/impl/MemberServiceImpl.java:211-215 | the lookup selects exactly the stored members with the row's name and number; a null value matches none |
| Members.ImportKeys | core/service/src/main/java/com/wansenai/service/basic/impl/MemberServiceImpl.java:209 | each row's key is its number and name joined by a pipe character |
| Members.ImportLookups | core/service/src/main/java/com/wansenai/service/basic/impl/MemberServiceImpl.java:211-215 | each row's lookup answers by how many stored members match it: none, one, or a throwing `selectOne` |
| Members.Imported | core/service/src/main/java/com/wansenai/service/basic/impl/MemberServiceImpl.java:217-220 | an imported row keeps its number, name and balance and gets the creation stamps |
| Members.Imports | core/service/src/main/java/com/wansenai/service/basic/impl/MemberServiceImpl.java:217-222 | the saved rows are the picked rows, in order, each made into a new entity |
| Members.ImportedRowsAreNew | core/service/src/main/java/com/wansenai/service/basic/impl/MemberServiceImpl.java:203-229 | a successful import saves no two rows with the same key and none with a stored namesake |
| Members.MemberService.constructor | core/service/src/main/java/com/wansenai/service/basic/impl/MemberServiceImpl.java:40-43 | the service starts on the given member table |
| Members.MemberService.GetMemberById | core/service/src/main/java/com/wansenai/service/basic/impl/MemberServiceImpl.java:293-304 | the member is found exactly when the id is given and stored, and it is the stored row |
| Members.MemberService.UpdateAdvanceChargeAmount | core/service/src/main/java/com/wansenai/service/basic/impl/MemberServiceImpl.java:274-290 | the answer is true exactly when the id and a positive amount are given and the member exists; false changes nothing, true credits exactly that member's balance |
| Members.MemberService.SaveOrUpdate | core/service/src/main/java/com/wansenai/service/basic/impl/MemberServiceImpl.java:128 | `saveOrUpdate` writes the row under its id and reports it written |
| Members.MemberService.AddOrUpdateMember | core/service/src/main/java/com/wansenai/service/basic/impl/MemberServiceImpl.java:104-147 | the request's member, with defaults, is saved under a fresh id or its own, and the answer names which |
| Members.MemberService.DeleteBatchMember | core/service/src/main/java/com/wansenai/service/basic/impl/MemberServiceImpl.java:150-171 | a null or empty list changes nothing and is refused; otherwise the members are removed, and removing none is an error |
| Members.MemberService.UpdateMemberStatus | core/service/src/main/java/com/wansenai/service/basic/impl/MemberServiceImpl.java:174-199 | a null or empty list changes nothing and is refused; otherwise the listed members take the status, and matching none is an error |
| Members.MemberService.BatchAddMember | core/service/src/main/java/com/wansenai/service/basic/impl/MemberServiceImpl.java:203-229 | each new key is looked up once; members with no stored namesake are inserted under fresh ids; a throwing lookup leaves the table unchanged; an empty batch answers false |
| AdvanceCharges.FileIdList | core/service/src/main/java/com/wansenai/service/financial/impl/AdvanceChargeServiceImpl.java:88-133 | a creation, or an update that sends no files, names no attachments; an update that sends files names exactly their fresh ids, one per file |
| AdvanceCharges.OldFileIds | core/service/src/main/java/com/wansenai/service/financial/impl/AdvanceChargeServiceImpl.java:107-116 | the stored attachment ids are read only by an update that sends files for a receipt that exists; otherwise nothing is read and nothing can throw |
| AdvanceCharges.Assembled | core/service/src/main/java/com/wansenai/service/financial/impl/AdvanceChargeServiceImpl.java:136-157 | the main row is an advance charge of the member, with the request total as change and total, the review status or unaudited, the current user as creator and the attachment ids joined with commas |
| AdvanceCharges.SubList | core/service/src/main/java/com/wansenai/service/financial/impl/AdvanceChargeServiceImpl.java:181-191 | one sub row per table line, in order, each under the main id with the line's account, amount and remark, and live |
| AdvanceCharges.SubsWithout | core/service/src/main/java/com/wansenai/service/financial/impl/AdvanceChargeServiceImpl.java:91-98 | removing the old lines drops exactly the sub rows of the receipt and keeps every other row as it was |
| AdvanceCharges.FileIdsRoundTrip | core/service/src/main/java/com/wansenai/service/financial/impl/AdvanceChargeServiceImpl.java:108-133 | the comma-joined ids a save writes are read back as the same ids by the next update |
| AdvanceCharges.UpdateWithoutFilesClearsThem | core/service/src/main/java/com/wansenai/service/financial/impl/AdvanceChargeServiceImpl.java:133-147 | an update that sends no files writes an empty attachment list over the stored one |
| AdvanceCharges.UpdateRewritesCreator | core/service/src/main/java/com/wansenai/service/financial/impl/AdvanceChargeServiceImpl.java:149-157 | an update writes the current user as creator, and keeps the stored creation time and delete flag |
| AdvanceCharges.NameOf | core/service/src/main/java/com/wansenai/service/financial/impl/AdvanceChargeServiceImpl.java:236-238 | a name is found exactly when the id is given and stored |
| AdvanceCharges.ToChargeView | core/service/src/main/java/com/wansenai/service/financial/impl/AdvanceChargeServiceImpl.java:252-265 | the view carries the receipt's id, number and total; a missing member, operator or personnel shows as the empty string, and a null change amount as zero collected |
| AdvanceCharges.FlagChargesDeleted | core/service/src/main/java/com/wansenai/service/financial/impl/AdvanceChargeServiceImpl.java:440-447 | exactly the listed receipts are flagged deleted; no row disappears and no other row changes |
| AdvanceCharges.FlagLinesDeleted | core/service/src/main/java/com/wansenai/service/financial/impl/AdvanceChargeServiceImpl.java:449-462 | exactly the lines of the listed receipts are flagged deleted; no row disappears and no other row changes |
| AdvanceCharges.SoftDeleteIdempotent | core/service/src/main/java/com/wansenai/service/financial/impl/AdvanceChargeServiceImpl.java:435-462 | deleting the same receipts twice is the same as once, and a line ends deleted exactly when it was or its receipt is listed |
| AdvanceCharges.AdvanceChargeService.constructor | core/service/src/main/java/com/wansenai/service/financial/impl/AdvanceChargeServiceImpl.java:60-77 | the service starts on the given receipts, lines and member service |
| AdvanceCharges.AdvanceChargeService.AddOrUpdateAdvanceCharge | core/service/src/main/java/com/wansenai/service/financial/impl/AdvanceChargeServiceImpl.java:81-179 | a request without a member or receipt date changes nothing; a malformed stored attachment list rolls everything back; without lines only the old lines are removed; otherwise the receipt and its lines are saved and the member is credited the total, the answer saying whether the credit went through |
| AdvanceCharges.AdvanceChargeService.ViewsOf | core/service/src/main/java/com/wansenai/service/financial/impl/AdvanceChargeServiceImpl.java:235-241 | one view per receipt of the page, in order, built from its member, creator and financial personnel |
| AdvanceCharges.AdvanceChargeService.GetAdvanceChargePageList | core/service/src/main/java/com/wansenai/service/financial/impl/AdvanceChargeServiceImpl.java:194-249 | an empty page answers `QUERY_DATA_EMPTY`; otherwise one view per receipt of the page, in order, each a live advance charge the query matches |
| AdvanceCharges.AdvanceChargeService.DeleteAdvanceChargeById | core/service/src/main/java/com/wansenai/service/financial/impl/AdvanceChargeServiceImpl.java:435-477 | a null or empty list changes nothing and is refused; otherwise the receipts and all their lines are flagged deleted, and the answer is success exactly when some line belonged to a listed receipt |
| AdvanceCharges.ResaveCreditsAgain | core/service/src/main/java/com/wansenai/service/financial/impl/AdvanceChargeServiceImpl.java:164 | saving the same receipt again credits the member the full total again, so the balance grows on every save |
| AccountItem.KindOf | api/src/main/java/com/wansensoft/api/account/AccountItemController.java:71-77 | the head is money-in exactly when its type equals the money-in constant, and money-out exactly when it equals the money-out constant and that one is distinct |
| AccountItem.EachAmountSignRule | api/src/main/java/com/wansensoft/api/account/AccountItemController.java:70-77 | money-in amounts are copied and a null one passes; money-out amounts are negated, other types show the absolute value, and for both a null amount throws |
| AccountItem.ZeroMinusIsNegate | api/src/main/java/com/wansensoft/api/account/AccountItemController.java:74 | zero minus an amount has the value of its negation and is positive exactly when the amount is negative |
| AccountItem.ShapeRow | api/src/main/java/com/wansensoft/api/account/AccountItemController.java:58-79 | a row is produced exactly when its amount can be shaped, and then every field is copied, the bill number defaults to `QiChu` and the amount follows the sign rule |
| AccountItem.GetDetailList | api/src/main/java/com/wansensoft/api/account/AccountItemController.java:42-91 | the answer is 200 exactly when the header id is given and is 0, or the head exists and every amount can be shaped; header 0 gives an empty table; a 200 answer has one shaped row per detail and their count as total; anything else is 500 with the failure text |
| BatchImports.SelectOne | core/service/src/main/java/com/wansenai/service/basic/impl/SupplierServiceImpl.java:249-254 | `selectOne` answers no match exactly when no stored row matches, and throws exactly when several do |
| BatchImports.KeysAt | core/service/src/main/java/com/wansenai/service/basic/impl/SupplierServiceImpl.java:243-275 | the key set holds exactly the keys of the rows imported so far |
| BatchImports.Kept | core/service/src/main/java/com/wansenai/service/basic/impl/SupplierServiceImpl.java:245-279 | the imported rows are positions of the input, at most one per input row |
| BatchImports.KeptStep | core/service/src/main/java/com/wansenai/service/basic/impl/SupplierServiceImpl.java:246-277 | one more row: a key already taken skips it without a lookup; otherwise a throwing lookup aborts the import, a match skips the row and no match takes it |
| BatchImports.ThrowsPersists | core/service/src/main/java/com/wansenai/service/basic/impl/SupplierServiceImpl.java:239-281 | once a lookup has thrown, the whole import throws |
| BatchImports.SelectKept | core/service/src/main/java/com/wansenai/service/basic/impl/SupplierServiceImpl.java:242-279 | the loop with its key set computes exactly the rows the import keeps, or throws where a lookup it makes throws |
| BatchImports.KeptShape | core/service/src/main/java/com/wansenai/service/basic/impl/SupplierServiceImpl.java:245-279 | the imported rows come in input order, none has a stored match, and no two share a key |
| BatchImports.FirstOccurrenceKept | core/service/src/main/java/com/wansenai/service/basic/impl/SupplierServiceImpl.java:247-276 | a row without a stored match is imported exactly when no earlier imported row has its key |
| BatchImports.UnmatchedKeyImported | core/service/src/main/java/com/wansenai/service/basic/impl/SupplierServiceImpl.java:247-276 | every row without a stored match is represented: it, or an earlier row with its key, is imported |
| BatchImports.KeptWithoutFailures | core/service/src/main/java/com/wansenai/service/basic/impl/SupplierServiceImpl.java:249-253 | when no lookup throws, the import goes through |
| BatchImports.AllBuilt | core/service/src/main/java/com/wansenai/service/basic/impl/SupplierServiceImpl.java:254-271 | a list of built rows exists exactly when every row was built, and then it holds them all, in order |

## Left out

- Redis caching, system messages, uploaded files and `SysFile` rows, and every `export…Excel` method: these are I/O beside the bookkeeping.
- Clock readings, Snowflake ids and the current user: they are parameters, so time stamps are opaque numbers and receipt dates are kept as the text parsed.
- Concurrency and the transaction manager itself. `@Transactional` is modelled only as the rollback of a method that throws.
- The receipt page, detail, link-detail and export-list queries, along with the purchase order operations (`addOrUpdatePurchaseOrder`, `deletePurchaseOrder`, `updatePurchaseOrderStatus`). The model covers the storage, refund, shipment and sale-refund bookkeeping and the arrears pages.
- Receipts paid through several accounts (`multipleAccount`, `createAccountName`): the balance logic modelled is the single-account branch.
- The per-thread `receiptSubListCache` of `getReceiptSubList`: it holds no state the bookkeeping reads.
- `updateAdvanceChargeStatusById`, `getAdvanceChargeDetailById` and the advance-charge export methods: these are plain reads and writes, and they sit outside the core that is modelled.
- `getMemberPageList`, `getMemberList`, the customer page and list queries, `getWarehousePageList` and `productUnitList`: their filters are SQL `like` chains over columns the model does not hold.
- `AdvanceCharges.AdvanceChargeService.GetAdvanceChargePageList`: the page counters `total`, `pages` and `size` are left out, as for every paged query in the model.
- Products: the stock rows and images written by `addOrUpdateProduct`, the `like`/`or` filter of the product list, prices and weights, and `getNumberValue` are left out. Prices and weights are `Double`, and floating point is not modelled. The number types `getNumberValue` reads are declared in DTO classes that are not part of this model.
- `updateBatchProductInfo` and `batchAddProduct`: they belong to product maintenance outside the validated add and update path.
- A `null` request DTO, which is a `NullPointerException` in every service. Requests are plain values here.
- The Kotlin DTO variant of the attribute requests: the Kotlin services are modelled on the same request values as the Java ones.
- The user, operator and account services: they appear only as maps from id to name or balance.
- SQL's coercion of string to number wherever an id arrives as text: the role ids of the role services and the department id of `deleteDept` (`Departments.DeletedById`, `Departments.DepartmentService.DeleteDept`) are compared by their exact decimal text, so text such as `"007"` names no row.
- The code and message strings of the result enums, which are declared in enum classes that are not part of this model: a response carries the constant's symbolic name.
- `Double` to `BigDecimal` conversion and the E-notation of a tax rate, as well as the supplier contact columns other than `contact`. These only copy request fields.
- Imported supplier, customer and member rows carry the columns the import reads. The rest of the entity is not modelled.
- `AddSupplierDTO` is declared in a class that is not part of this model. The add request is modelled on the columns `addSupplier` copies.
- The department and category trees are built from keys listed in ascending order. Database row order without `ORDER BY` is taken to be key order.
- `ProductStock.StockTable.UpdateProductStockAsWritten`: the mapper query that locates a line's stock row is modelled as a lookup by barcode, warehouse and sku. The mapper's XML is not part of this model, and its `stock.getId()` is taken to be the sku id.
- UpdateReplacesStock: restore-then-reapply is proved for the corrected stock update only. The two-pass update the services use does not restore, and `Receipts.UpdateDoesNotReplaceStockAsWritten` gives the input.
- ApplyThenReverse: proved for the corrected stock update only. The two-pass update does not restore a slot that two lines share, or a sku with lines in several warehouses (`ProductStock.ReverseDoesNotRestoreAsWritten`).
- ReapplyReplaces: proved for the corrected stock update only. As written, 10 + 5 + 3 on one slot ends at 13 (`ProductStock.RepeatedSlotLosesUpdate`), and a reversal does not undo the lines it reverses.
- A null `productNumber` on a receipt line or a null stock figure on a stock row. Java unboxes both to `int` (lines 113-117 and 250-254 of `ReceiptPurchaseServiceImpl.java`), which throws on null. The model's lines and stock rows always carry a number.
- A warehouse saved with a null `isDefault`. `getIsDefault() == CommonConstants.IS_DEFAULT` at line 154 of `WarehouseServiceImpl.java` is read as "is the default", and a null is taken to be not the default. `CommonConstants` is not part of this model, so whether the comparison unboxes is left open.
- A malformed receipt date. `TimeUtil.parse` (line 146 of `AdvanceChargeServiceImpl.java`, line 1104 of `ReceiptPurchaseServiceImpl.java`) is not part of this model, and receipt dates are kept as the text given.
- `StringUtil.isNotEmpty` in the account-item detail (line 63 of `AccountItemController.java`) is taken to be Spring's `hasLength`: `StringUtil` is not part of this model.
- Warehouses.WarehouseService.WarehouseList: the views do not carry `createTime`, which `getWarehouseList` copies, because clock readings are opaque here.

## Findings

| source | as written | input that shows it | evidently intended | confidence | as-written member | corrected member |
|---|---|---|---|---|---|---|
| core/service/src/main/java/com/wansenai/service/receipt/impl/ReceiptPurchaseServiceImpl.java:1113 | the new main's `changeAmount` is `thisPaymentAmount.negate()`, evaluated even when the amount is null (also line 1028, and `ReceiptSaleServiceImpl.java` lines 1554 and 1639 for sale refunds) | a purchase storage saved without a payment amount throws a `NullPointerException`, and the transaction rolls back | a receipt without a payment stores no change and moves no money | not executed | Receipts.StorageWithoutPayment | Receipts.MoveIsStoredChange |
| core/service/src/main/java/com/wansenai/service/receipt/impl/ReceiptPurchaseServiceImpl.java:1603-1616 | updating a purchase refund subtracts the new refund and adds back the old rows' total | a refund of goods worth 100 paid into an empty account (now 100), updated to a refund of 30, leaves the account at 170 | undo the old refund, apply the new one: 30 | not executed | Receipts.RefundUpdateAsWritten | Receipts.RefundUpdateCorrected |
| core/service/src/main/java/com/wansenai/service/receipt/impl/ReceiptPurchaseServiceImpl.java:243-273 | `updateProductStock` writes each computed sku figure into the warehouse of every line, and two lines for one slot each start from the stored figure | stock 10 with two lines adding 5 and 3 ends at 13; a sku computed for warehouse A is also written into warehouse B | each line moves its own slot, and the moves of one slot add up: 18 | not executed | ProductStock.RepeatedSlotLosesUpdate | ProductStock.StockTable.UpdateProductStock |
| core/service/src/main/java/com/wansenai/service/receipt/impl/ReceiptPurchaseServiceImpl.java:1069-1082 | an update of a purchase storage gives back the sum of the old rows' totals, not the change the receipt stored | goods worth 100 paid 60 from an empty account (now −60), re-saved unchanged, leave the account at −20 | restore the stored change, then apply the new payment: −60 | not executed | Receipts.StorageUpdateAsWritten | Receipts.StorageUpdateCorrected |
| core/service/src/main/java/com/wansenai/service/system/impl/SysMenuServiceImpl.java:76-86 | the administrator's grant is read with `getById(0L)`, the key of a relation row, but written by role id 0 | once role 0's relation row has another key, adding menu 7 writes `[7]` over `[1]` | read role 0's grant by role id and append: `[1][7]` | not executed | Menus.AdminGrantLostAsWritten | Menus.AddMenuExtendsAdminGrant |
| core/service/src/main/java/com/wansenai/service/basic/impl/SupplierServiceImpl.java:152-157 | the quarters are passed through `List.of`, which throws on a null element, before `calculateTotalAccount` filters nulls out (also lines 263-268 and 296-301, and `CustomerServiceImpl.java` lines 328-333) | a supplier with a first quarter of 5 and three null quarters throws | nulls count as zero: a total of `5.000` | not executed | QuarterTotals.OneQuarterCounterexample | QuarterTotals.QuarterTotal |
