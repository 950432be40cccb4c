# Expense splitting backend: a verified model of its controllers

This project models the core of an Express and Mongoose backend for sharing expenses in a group. It covers:

- recording expenses, including split shares owed by *pending members* (people invited by e-mail who have no account yet);
- settling up with payments, and their verification by the receiver;
- the payment history and net amount between two users;
- groups and their membership, including invitations;
- each group's balance sheet;
- registration, which turns a pending member's invitations and split shares into a real membership.

The database is the class `Database.Database`. Its fields are the four collections (users, groups, ledger records, pending-invite records) and an id counter. Each request handler is a method on it, with this contract:

- the handler keeps `Valid()`, the invariant that every stored user, group and ledger record passed its schema and every pending-invite record has the form its setters give (lower-case, trimmed e-mail and trimmed name; the upsert that stores an invitation runs no validators, so its name may be empty);
- it names each refusal by an `Error`, with an if-and-only-if condition over the old state;
- a refused request changes nothing;
- on success it states the whole new state.

The pure parts are functions with their own contracts, and lemmas relate them:

- split normalisation and the split-sum rule;
- the notifications;
- the conversion of pending splits;
- reconciling a group on registration;
- the balance replay;
- the net amount.

Modelling choices:

- **Requests and time.** Request bodies are datatypes whose absent fields are `None`. JavaScript truthiness is written out (`Present`, `NonZero`, `Dated`, `OrElse`); a date is a timestamp, so 0 is a falsy date. `Date.now()` and the requester's id are parameters.
- **Mongoose setters.** `trim`, `lowercase` and `uppercase` apply when a document is built. Schema validators (`required`, `min`, `maxlength`, `enum`) are checked when it is saved, and refuse with `ValidationFailed`.
- **Queries.** `find` keeps stored order (`Ledger.Select`). `populate` drops references to missing documents (`AuthController.LiveGroups`), and a null it leaves behind surfaces as `MissingReference` when it is dereferenced.
- **Notifications** are returned as values next to the stored record.
- **`addMember` writes the group before it fails.** `controllers/groupController.js` never imports `Notification`. So each `Notification.create` in `addMember` throws a ReferenceError. In the user-id branch the group has already been saved and the records converted when it throws. In the e-mail branch it throws before the save. The model keeps exactly these effects (`NotificationUnavailable`).

## Model

| member | source | states |
|---|---|---|
| Text.Trim | models/Expense.js:7-11 | `trim()` yields the slice of the input left after removing its leading and trailing white space: everything cut off is white space and the result has none at either end; it is the identity on trimmed strings and empty exactly when the input is all white space |
| Text.TrimSlice | models/Expense.js:7-11 | cutting white space from the front and then the back leaves a slice of the input with only white space outside it |
| Text.Lower | models/Expense.js:99-103 | lower-casing keeps the length, maps each character through ASCII lower-casing, and leaves no upper-case letter |
| Text.Upper | models/Group.js:12-16 | upper-casing keeps the length and leaves no lower-case letter |
| Text.NormEmail | models/User.js:12-18 | an e-mail stored with `lowercase` and `trim` is the lower-casing of the given e-mail with its surrounding white space removed, so it has no upper-case letter and no surrounding space |
| Text.LowerKeepsSpace | models/User.js:12-18 | lower-casing commutes with taking a slice and moves no white space |
| Text.LowerIdempotent | controllers/groupController.js:22 | lower-casing twice equals lower-casing once, so comparing `toLowerCase()` of stored and given e-mails is stable |
| Text.UpperOfUpper | models/Group.js:12-16 | the `uppercase` setter leaves an all-upper-case currency (the default "USD") unchanged |
| Common.OrElse | controllers/expenseController.js:66 | `x \|\| fallback` yields the value when it is truthy and the fallback otherwise |
| ExpenseModel.ParseKind | models/Expense.js:31-35 | the `type` enum accepts a string exactly when it names EXPENSE or PAYMENT |
| ExpenseModel.ParseMethod | models/Expense.js:48-52 | the `paymentDetails.method` enum accepts exactly its eight names |
| ExpenseModel.ParseStatus | models/Expense.js:82-86 | the `verification.status` enum accepts exactly PENDING, ACCEPTED and DISPUTED |
| ExpenseModel.StoredSplit | models/Expense.js:93-117 | a stored split keeps user, name, amount and pending flag; its e-mail is present exactly when given and is stored lower-cased |
| ExpenseModel.TrimOpt | models/Expense.js:58-62 | the `trim` setter on an optional path keeps null as null and trims a given string |
| ExpenseModel.IsSettled | models/Expense.js:129-134 | an EXPENSE is always settled; a PAYMENT is settled exactly when verified |
| Ledger.SplitTotalAppend | controllers/expenseController.js:32 | the split total is additive over concatenation |
| Ledger.NormaliseSplit | controllers/expenseController.js:38-57 | a split with a user becomes a registered share with no e-mail or name; one with only an e-mail becomes a pending share with the lower-cased e-mail and the name or "Unknown"; one with neither fails with SplitWithoutParty; the amount is kept |
| Ledger.NormaliseSplits | controllers/expenseController.js:38-57 | the whole list succeeds exactly when every split names a party; on success each element is its normalised split and the total equals the request total |
| Ledger.RawSplits | controllers/expenseController.js:186-191 | replacement splits are stored as sent, element by element, with the schema's setters and defaults, keeping the length and the total |
| Ledger.ExpenseAddedNotices | controllers/expenseController.js:79-92 | one EXPENSE_ADDED notice from the payer per split whose user is set and is not the payer, carrying that split's user and amount and the record's id; no other notices |
| Ledger.ExpenseAddedNoticesOne | controllers/expenseController.js:79-92 | a single split yields its notice exactly when its user is set and is not the payer, and nothing otherwise |
| Ledger.ExpenseAddedNoticesAppend | controllers/expenseController.js:79-92 | the notices of concatenated splits are the notices of each part in order, so there is one notice per notified split, in split order |
| Ledger.SettleNotices | controllers/expenseController.js:347-375 | the receiver is always notified first; the payer gets a second notice exactly when someone else recorded the payment |
| Ledger.VerifyNotice | controllers/expenseController.js:422-432 | the payer is notified by the verifier about this record; PAYMENT_VERIFIED exactly when the status was ACCEPTED, otherwise PAYMENT_DISPUTED |
| Ledger.VerifyOutcome | controllers/expenseController.js:407-412 | the new verification is defined exactly when the status is absent or in the enum; it records the verifier and the time, is verified exactly for ACCEPTED, and its status is the one sent (ACCEPTED when absent) |
| Ledger.RemarksPermission | controllers/expenseController.js:546-556 | payer, receiver or recorder may edit remarks; a non-payer on a payment without receiver hits the null dereference (MissingReference); anyone else is NotInvolved |
| Ledger.Select | controllers/expenseController.js:237-242 | a query returns the stored records that satisfy its filter, each as often as stored, and nothing else |
| Ledger.PaymentsBetweenSymmetric | controllers/expenseController.js:484-494 | the payments between two users do not depend on which one is named first |
| Ledger.PaymentsBetween | controllers/expenseController.js:484-494 | the query returns only PAYMENT records from one user to the other (in the group when one is given), each such record as often as stored |
| Ledger.Net | controllers/expenseController.js:505-512 | the reference definition of the intended accumulator: a payment user1 made adds its amount and any other subtracts it; its laws are `NetSwap`, `NetAppend`, `NetIsSum` and `NetOrderIndependent` |
| Ledger.NetAmount | controllers/expenseController.js:505-512 | the loop computes the net amount: what user1 paid the other minus what they received |
| Ledger.NetSwap | controllers/expenseController.js:505-512 | for payments between two distinct users, naming them the other way round negates the net |
| Ledger.NetAppend | controllers/expenseController.js:505-512 | the net amount is additive over concatenation |
| Ledger.NetIsSum | controllers/expenseController.js:505-512 | the net amount is the sum of each payment's signed contribution |
| Ledger.NetOrderIndependent | controllers/expenseController.js:496-512 | the net amount over the sorted payments equals that over the payments in any order |
| Ledger.NetAsWrittenDisagrees | controllers/expenseController.js:496-512 | the accumulator as written reports -10 for one payment of 10 made by user1, where the intended net is +10 |
| Ledger.NetAsWritten | controllers/expenseController.js:496-512 | the accumulator as written subtracts every amount: it equals the intended net of any user who made none of the payments |
| Ledger.InsertByDate | controllers/expenseController.js:249 | inserting into a list sorted newest first keeps it sorted and adds exactly that record |
| Ledger.InsertFront | controllers/expenseController.js:249 | a record newer than the head of a sorted list can go in front |
| Ledger.InsertBehind | controllers/expenseController.js:249 | a record no newer than the head goes behind it, and the result is sorted with the right contents |
| Ledger.SortByDateDesc | controllers/expenseController.js:249 | `sort('-date')` yields a permutation of its input ordered newest first |
| Ledger.Take | controllers/expenseController.js:250 | `limit(n)` yields the first n records, or all when there are fewer, keeps sortedness and takes nothing new |
| Ledger.InvolvingUser | controllers/expenseController.js:237-242 | the records the user paid or has a split in, each as often as stored |
| Ledger.UserExpenses | controllers/expenseController.js:235-256 | the user's records, newest first, drawn from the collection: exactly 50 when there are more than 50, all of them when there are at most 50 |
| Ledger.UserExpensesNewest | controllers/expenseController.js:246-250 | the 50 returned are the most recent: no record of the user left out is newer than any returned |
| Ledger.NewestInvolving | controllers/expenseController.js:246-249 | every record of the user, as often as stored, newest first |
| Ledger.PrefixKeepsNewest | controllers/expenseController.js:249-250 | a record of the user occurring more often in the sorted list than in its first n is no newer than any of those n |
| Database.Database.constructor | models/User.js:12-18 | an empty database satisfies the invariant |
| Database.Database.FindUserByEmail | controllers/authController.js:64 | `User.findOne({ email })` finds an account with that stored e-mail exactly when one exists |
| Database.Database.InsertUser | controllers/authController.js:74-78 | `User.create` stores the account under a fresh id and keeps stored e-mails unique; the other collections are untouched |
| Database.Database.InsertGroup | controllers/groupController.js:54-61 | `Group.create` stores the group under a fresh id; the other collections are untouched |
| Database.Database.SaveGroup | controllers/groupController.js:138 | `group.save()` replaces the group under its id and keeps the invariant |
| Database.Database.DeleteGroup | controllers/groupController.js:327-329 | the group is gone and exactly the records of other groups remain, in order, with distinct ids |
| Database.Database.InsertExpense | controllers/expenseController.js:60-70 | `Expense.create` appends the record under a fresh id, keeping ids distinct |
| Database.Database.SaveExpense | controllers/expenseController.js:193 | `expense.save()` replaces the record at its position |
| Database.Database.DeleteExpense | controllers/expenseController.js:224 | `deleteOne()` removes exactly that record; the others keep their order |
| Database.Database.SavePending | controllers/groupController.js:244-253 | the upsert replaces the pending record for its e-mail |
| Database.Position | controllers/expenseController.js:211-222 | `findById` yields the position of the record with that id, or -1 exactly when none has it |
| Database.SelectIds | controllers/groupController.js:327 | filtering a collection with distinct ids keeps the ids distinct |
| ExpenseController.CreateExpense | controllers/expenseController.js:12-98 | refuses, each exactly in its case and in source order: missing field, unknown group, non-member, split sum off by more than 0.01, split without party, schema rejection; refusals change nothing; otherwise it appends one record under a fresh id, paid by the requester, with the trimmed description, the type sent or EXPENSE, the default verification and no payment details, and the normalised splits, which sum to its amount; it returns the EXPENSE_ADDED notices |
| ExpenseController.StoreExpense | controllers/expenseController.js:59-92 | once the checks pass, the record is stored exactly when the schema accepts it, with every field stated and the notices returned |
| ExpenseController.Validated | models/Expense.js:7-35 | the record built from a request passes the `type` enum and the validators exactly when the request's trimmed description is non-empty, its amount and split amounts are non-negative and its type is in the enum |
| ExpenseController.NormalisedEmails | controllers/expenseController.js:49 | normalisation stores every e-mail lower-cased |
| ExpenseController.NormalisedAmounts | controllers/expenseController.js:38-57 | normalisation keeps each split's amount |
| ExpenseController.EditAmount | controllers/expenseController.js:178 | `amount \|\| expense.amount`: a truthy new amount wins, otherwise the old one stays |
| ExpenseController.Edited | controllers/expenseController.js:186-191 | after the assignments, a falsy description, amount or date keeps the old value; category and receipt change when sent; splits are replaced by the raw splits when sent; nothing else changes, and an empty edit is the identity |
| ExpenseController.EditedNormal | controllers/expenseController.js:186-193 | an edit keeps the setter guarantees of a stored record |
| ExpenseController.EditedSum | controllers/expenseController.js:178-184 | when the split check passes and splits are replaced, or the record summed and neither splits nor amount change, the edited record's splits sum to its amount |
| ExpenseController.AmountOnlyEditBreaksSum | controllers/expenseController.js:178-191 | an edit of the amount alone passes the split check yet leaves splits that no longer sum to the new amount |
| ExpenseController.UpdateExpense | controllers/expenseController.js:162-206 | refuses unknown record, non-payer, replacement splits off the new amount, and schema rejection, each exactly in its case; otherwise the record at its position becomes `Edited` and nothing else changes; it succeeds exactly when none of the refusals applies |
| ExpenseController.ApplyEdit | controllers/expenseController.js:186-191 | the field-by-field assignments produce `Edited` |
| ExpenseController.DeleteExpense | controllers/expenseController.js:211-230 | refuses unknown record and non-payer; otherwise exactly that record leaves the collection, others keep order, and no record with that id remains; it succeeds exactly when none of the refusals applies |
| ExpenseController.PaymentDescription | controllers/expenseController.js:315 | the description "Payment: payer → receiver" is already trimmed when the receiver's name is |
| ExpenseController.SettleUp | controllers/expenseController.js:261-381 | refuses, each exactly in its case and in source order: missing field, payer equal to receiver, unknown group, requester, payer or receiver not a listed member, schema rejection; otherwise appends an unverified PENDING PAYMENT with the single split {receiver, amount}, recorded by the requester, and returns `SettleNotices` |
| ExpenseController.VerifyPayment | controllers/expenseController.js:386-438 | refuses unknown record, non-payment, payment without receiver, non-receiver and a status outside the enum; otherwise only the verification changes, to `VerifyOutcome`; the record is settled exactly when ACCEPTED was sent; the payer is notified; it succeeds exactly when none of the refusals applies |
| ExpenseController.UpdatePaymentRemarks | controllers/expenseController.js:532-570 | refuses unknown record, non-payment, a requester not involved (or the null dereference), and remarks over 500 characters once trimmed; otherwise only the trimmed remarks change; it succeeds exactly when none of the refusals applies |
| ExpenseController.PaymentsBetweenUsers | controllers/expenseController.js:474-527 | refuses a missing user; fails when a payer has no account; otherwise returns the payments between the two users newest first, their count, and the net user1 paid, which negates when the users are swapped; it succeeds exactly when both users exist and every payer has an account |
| GroupController.ConvertPendingMemberExpenses | controllers/groupController.js:10-40 | the loop leaves the collection equal to `Conversion.ConvertGroup` of it and keeps the invariant |
| GroupController.CreateGroup | controllers/groupController.js:45-71 | refuses a missing name and a name blank once trimmed, changing nothing; otherwise stores a group under a fresh id with the trimmed name, the upper-cased currency or USD, the creator first among the members and as `createdBy` |
| GroupController.EditedGroup | controllers/groupController.js:133-136 | falsy name and currency keep the old values; icon and image change whenever sent; setters are applied; nothing else changes; an empty edit is the identity |
| GroupController.UpdateGroup | controllers/groupController.js:118-148 | refuses unknown group, non-creator and a blank name, each exactly in its case; otherwise only that group changes, to `EditedGroup`; it succeeds exactly when none of the refusals applies |
| GroupController.InviteKey | controllers/groupController.js:207 | the query key of an e-mail is its stored form: the e-mail lower-cased with its surrounding white space removed |
| GroupController.Invite | controllers/groupController.js:244-253 | the upserted pending record has the e-mail, trimmed name and inviter of the request and lists the group once; an existing record keeps its other groups and status, a new one starts at pending with just this group |
| GroupController.InviteIdempotent | controllers/groupController.js:244-253 | inviting the same e-mail to the same group twice leaves the record as after the first time |
| GroupController.PendingEntryFor | controllers/groupController.js:236-241 | the entry pushed on `pendingMembers` has a non-empty lower-cased e-mail, the name, and the requester as inviter |
| GroupController.Invited | models/Group.js:29-47 | pushing such an entry keeps the group schema-valid |
| GroupController.AddMember | controllers/groupController.js:155-274 | refuses unknown group and non-member; by user id: unknown user, already a member, else the group gains the user and converts records before failing on `Notification`; by e-mail: an existing account already a member, else failing on `Notification` before any save; a pending e-mail; otherwise the group gains the pending entry and the pending record is upserted; neither branch's fields given refuses with MissingMemberFields |
| GroupController.AddById | controllers/groupController.js:172-203 | the user-id branch never succeeds; past its checks the group gains the user, the group's records are converted for the user's e-mail, then it fails |
| GroupController.AddByEmail | controllers/groupController.js:205-258 | the e-mail branch: AlreadyMember and NotificationUnavailable exactly when an account has the e-mail, by whether it is a member; AlreadyInvited when pending; otherwise the invitation is stored |
| GroupController.AccountLookup | controllers/groupController.js:207-212 | with unique e-mails, the account found is the only one that can be a member |
| GroupController.Invitation | controllers/groupController.js:227-258 | AlreadyInvited exactly when the e-mail is already pending, changing nothing; otherwise the group gains the entry and the pending record becomes `Invite` of the old one |
| GroupController.StoreInvite | controllers/groupController.js:244-258 | the upsert and the save, in that order, replace the pending record and the group |
| GroupController.RemoveMember | controllers/groupController.js:279-308 | refuses unknown group and a requester neither creator nor the removed user; otherwise only that group's members change, every occurrence of the user dropped; it succeeds exactly when none of the refusals applies |
| GroupController.DeleteGroup | controllers/groupController.js:313-335 | refuses unknown group and non-creator; otherwise the group and exactly its records are gone; it succeeds exactly when none of the refusals applies |
| GroupController.GroupRecords | controllers/groupController.js:353-356 | the query yields exactly the group's EXPENSE records |
| GroupController.UnselectedAppend | controllers/groupController.js:353-356 | recording a payment or a record of another group does not change the records the sheet replays |
| GroupController.GetGroupBalances | controllers/groupController.js:340-432 | refuses unknown group and non-member; fails when a replayed payer has no account; is undefined (a NaN balance) when a payer or split user has no entry; otherwise it is `Balances.GroupBalances` of the group's EXPENSE records; it succeeds exactly when none of these cases applies |
| Membership.AddToSet | controllers/authController.js:96-98 | the guarded push appends the id only when absent, keeps the prefix and uniqueness |
| Membership.RemoveAll | controllers/groupController.js:293-295 | the filter drops every occurrence of the id and keeps every other id as often as before |
| Membership.RemoveAllAppend | controllers/groupController.js:293-295 | filtering a concatenation filters each part and keeps their order, so the other ids stay in order |
| Membership.InitialMembers | controllers/groupController.js:59 | the creator comes first, then the given ids as sent |
| Membership.DropPending | controllers/authController.js:91-93 | the filter drops exactly the entries whose lower-cased e-mail is the key and keeps the others, in order |
| Membership.DropPendingCount | controllers/authController.js:91-93 | each entry not for the key is kept as many times as it occurs, and none for the key |
| Membership.DropPendingAppend | controllers/authController.js:91-93 | filtering a concatenation filters each part and keeps their order |
| Membership.ReconcileGroup | controllers/authController.js:88-100 | after the per-group step the user is a member, no entry for the e-mail remains, other entries and members stay, uniqueness and schema validity are kept, other fields unchanged |
| Membership.ReconcileIdempotent | controllers/authController.js:88-100 | reconciling twice equals reconciling once |
| Conversion.ConvertSplits | controllers/groupController.js:21-32 | the `map` keeps length, order and total; a matching pending split becomes the user's registered share of the same amount; others stay; none matches afterwards |
| Conversion.ConvertSplit | controllers/groupController.js:21-31 | one split through the `map`: a matching pending split becomes the user's registered share of the same amount, with no e-mail and no name; any other is returned as is; no result matches |
| Conversion.Selected | controllers/groupController.js:13-17 | the `find` filter: a record of the group with a split whose stored e-mail is the lower-cased target and some pending split; `UnselectedHasNoMatch` shows it misses nothing the `map` changes |
| Conversion.ConvertSplitsIdempotent | controllers/groupController.js:21-32 | converting again, for any user, changes nothing |
| Conversion.ConvertRecord | controllers/groupController.js:13-33 | a record the query selects gets its splits converted; any other stays as it was |
| Conversion.UnselectedHasNoMatch | controllers/groupController.js:13-17 | the query misses no record of the group the `map` would change |
| Conversion.ConvertRecordInGroup | controllers/groupController.js:13-33 | every record of the group ends up with converted splits, whether selected or not |
| Conversion.ConvertRecordWellFormed | controllers/groupController.js:21-33 | conversion keeps a stored record schema-valid and keeps its split total |
| Conversion.ConvertRecordIdempotent | controllers/groupController.js:13-33 | converting a record twice equals converting it once |
| Conversion.ConvertGroup | controllers/groupController.js:20-34 | the loop converts each record in place and keeps the length |
| Conversion.ConvertGroupEffect | controllers/groupController.js:10-40 | records of other groups are unchanged; records of the group have converted splits and no split matching the e-mail |
| Conversion.ConvertGroupIdempotent | controllers/groupController.js:10-40 | running the conversion twice equals running it once |
| Balances.InitMembers | controllers/groupController.js:363-365 | every member starts at zero, and only members have an entry |
| Balances.InitSheet | controllers/groupController.js:359-375 | the two initialisation loops: every pending entry has a name slot and vice versa; `InitMembers`, `InitPending`, `InitNamesLast` and `InitSheetTotal` state its entries and total |
| Balances.ApplySplit | controllers/groupController.js:381-403 | one split applied to the sheet, keeping the member entries; `SplitEffect` states its two branches and `ApplySplitConserves` its total |
| Balances.ApplySplits | controllers/groupController.js:378-404 | a record's splits applied in order, keeping the member entries; `SplitsEffect` states the result and `SplitOrderIndependent` its order independence |
| Balances.ApplyAll | controllers/groupController.js:378-404 | the whole replay over the records, keeping the member entries; `AllEffect`, `ApplyAllConserves` and `OrderIndependent` state it |
| Balances.InitPending | controllers/groupController.js:368-375 | each listed pending e-mail starts at zero, and only those have an entry |
| Balances.InitNamesLast | controllers/groupController.js:368-375 | an e-mail listed twice keeps the later entry's name |
| Balances.InitSheetTotal | controllers/groupController.js:359-375 | the initial sheet sums to zero |
| Balances.SplitEffect | controllers/groupController.js:381-403 | a pending split debits its lower-cased e-mail (opening it at zero) and credits the payer; a split for another user moves the amount from that user to the payer; anything else changes nothing |
| Balances.ApplySplitConserves | controllers/groupController.js:381-403 | each split leaves the sheet's total unchanged |
| Balances.SplitsEffect | controllers/groupController.js:381-403 | a record's splits move each entry by the sum of its shares |
| Balances.AllEffect | controllers/groupController.js:378-404 | the replay moves each entry by the sum of its shares over all records, opening exactly the debited e-mails |
| Balances.ApplyAllConserves | controllers/groupController.js:378-404 | the whole replay leaves the total unchanged |
| Balances.GroupBalances | controllers/groupController.js:359-404 | the sheet has an entry for exactly the members |
| Balances.SheetEntries | controllers/groupController.js:359-404 | the pending entries are exactly the listed e-mails plus those the records debit; member and pending balances are stated in closed form |
| Balances.Conservation | controllers/groupController.js:359-404 | the balances of members and pending members sum to zero |
| Balances.CoveredPermutation | controllers/groupController.js:378-404 | whether a balance would be NaN does not depend on record order |
| Balances.OrderIndependent | controllers/groupController.js:378-404 | the balances do not depend on the order in which records are replayed |
| Balances.SplitOrderIndependent | controllers/groupController.js:381-403 | nor on the order of the splits inside a record |
| Balances.ComputeBalances | controllers/groupController.js:359-404 | the nested loops fill the dictionaries with `GroupBalances` |
| Balances.StartSheet | controllers/groupController.js:359-375 | the initialisation loops produce the initial sheet |
| Balances.ReplayRecord | controllers/groupController.js:381-403 | the inner loop applies a record's splits in order |
| Balances.ReplaySplit | controllers/groupController.js:382-402 | the loop body applies one split |
| AuthController.LiveGroups | controllers/authController.js:81-85 | `populate('groups')` keeps exactly the listed groups that still exist, in order; it is the whole list when every listed group exists |
| AuthController.LiveGroupsCount | controllers/authController.js:81-85 | each existing group is kept as many times as it is listed, and no deleted one |
| AuthController.LiveGroupsAppend | controllers/authController.js:81-85 | populating a concatenation populates each part and keeps their order |
| AuthController.ReconcileAllEffect | controllers/authController.js:87-105 | each invited live group is reconciled once, whatever its repetitions; other groups are unchanged |
| AuthController.ReconcileAll | controllers/authController.js:87-100 | the group half of the loop over the live invited groups, keeping the set of groups; `ReconcileAllEffect` and `ReconcileAllOrder` state the result |
| AuthController.Reconciled | controllers/authController.js:87-105 | after the loop the user is a member of each invited group and no entry for the e-mail remains there |
| AuthController.ReconcileAllOrder | controllers/authController.js:87-105 | the groups after the loop depend only on the set of invited groups |
| AuthController.ConvertAllEffect | controllers/authController.js:87-105 | records of invited groups have converted splits; the others are unchanged |
| AuthController.ConvertAll | controllers/authController.js:87-105 | the record half of the loop, keeping the number of records; `ConvertAllEffect`, `ConvertAllClears` and `ConvertAllOrder` state the result |
| AuthController.ConvertAllClears | controllers/authController.js:87-105 | no record of an invited group keeps a pending split for the e-mail |
| AuthController.ConvertAllOrder | controllers/authController.js:87-105 | the records after the loop do not depend on the order of the invited groups |
| AuthController.JoinEffect | controllers/authController.js:81-120 | the count is reported exactly when an invited group exists and the pending record passes validation; the user belongs to every invited group, which keeps no pending entry for the e-mail, and none of their records keeps a pending split for it, also when the final save is rejected; all else is unchanged; the pending record is marked registered exactly when the count is reported, otherwise the pending records are unchanged; with every invited group existing and a valid record, the count is the number of invited groups |
| AuthController.Join | controllers/authController.js:81-120 | the invitation step of registerUser on the groups, records and pending records, with the reported count, including the save of a record with an empty name that throws after the loop; `JoinEffect` states every part of it |
| AuthController.RegisterUser | controllers/authController.js:48-134 | refuses, each exactly in its case: missing field, password under 6 characters, an account with the stored e-mail exists, a blank name or e-mail; these refusals change nothing; otherwise the account is stored under a fresh id with the trimmed name and stored e-mail, and the groups, records and pending records become `Join` of the old ones; it then fails with `ValidationFailed` exactly when the invitee's pending record is rejected at its save (`SaveRejected`), keeping those writes, and succeeds otherwise with the user and `Join`'s count |
| AuthController.CreateAccount | controllers/authController.js:74-120 | `User.create` followed by the invitation step, stated as `Join`; the account stays created, and the result is `ValidationFailed` exactly when the pending save is rejected, else the user with `Join`'s count |
| AuthController.JoinInvitedGroups | controllers/authController.js:81-110 | the invitation step on the collections equals `Join`; it fails with `ValidationFailed` exactly when the pending record's save is rejected, after the groups and records were written, and otherwise reports `Join`'s count |
| AuthController.BlankInviteRejectsRegistration | controllers/groupController.js:205-253 | an invitation with a name of white space only passes addMember's check and is upserted with an empty name; registering that e-mail while the group exists is then rejected at the pending save |
| AuthController.JoinAll | controllers/authController.js:87-105 | the loop saves each reconciled live group and converts its records, ending at `ReconcileAll` and `ConvertAll` |

## Left out

- HTTP: status codes, messages, `populate` on responses, and the response JSON (including `netDirection` and the user objects of balance entries). Errors are the `Error` values.
- Rounding: `Math.round(x * 100) / 100` and IEEE floating point. Money is an exact `real`, so the 0.01 tolerance compares exact sums.
- NaN: a balance read from a missing entry would be NaN in JavaScript. The model reports `BalanceUndefined` and leaves the arithmetic on NaN out.
- A split without an amount: its `reduce` total would be NaN, which passes the 0.01 comparison, and the schema's `required` would then refuse the record when it is saved. Every split in the model has an amount, so this path is not modelled.
- Case mapping and `trim` are ASCII and the usual white space; Unicode case folding is not modelled. Password length and the 500-character `maxlength` of remarks (`MaxRemarks`) are counted in characters; JavaScript counts UTF-16 code units, so the two differ for characters outside the Basic Multilingual Plane.
- Query setters: the `lowercase` and `trim` setters are taken to apply to query filters on User and PendingMember, so their lookups use the stored form of the e-mail (`GroupController.InviteKey`).
- bcrypt hashing, the password field and `generateToken` are not modelled; login, profile and the other handlers of the controllers are outside this model.
- Notifications: delivery and the Notification model's validation are left out. Notices are returned as values, and message texts are dropped.
- Time, randomness and ids: `Date.now()` is a parameter, and new ids come from a counter.
- Concurrency and atomicity: each handler runs alone. Partial failures are modelled only where the source evidently fails after a write: `addMember`'s user-id branch, and registerUser's pending-record save after the account, groups and records were written.
- User.js: modelled as id, name and e-mail only. Avatar and isAdmin are not read by the core.
- The `try`/`catch` of `convertPendingMemberExpenses`: nothing it calls fails in the model, so the catch is never reached.
- Pending records keep listing deleted groups, as in the source. `populate` skips them at registration.
- The duplicate `convertPendingMemberExpenses` of controllers/authController.js:11-43 is the same code, modelled once by `GroupController.ConvertPendingMemberExpenses`.
- ExpenseController.PaymentsBetweenUsers: the net is computed from payer ids as evidently intended. The as-written comparison is shown separately (see Findings).

## Findings

| source | as written | input that shows it | evidently intended | confidence | as-written member | corrected member |
|---|---|---|---|---|---|---|
| controllers/expenseController.js:496-512 | the payments are loaded with `populate('payer')`, so `payment.payer.toString()` is a document's string, never equal to the id `user1`; every amount is subtracted | one payment of 10 from user1 to user2: the net is reported as -10 | +10 for a payment user1 made, minus what user1 received | not executed | Ledger.NetAsWrittenDisagrees | Ledger.NetAmount |
