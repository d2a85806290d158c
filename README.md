# Smartphone compare app: the decision logic of its three screens

This project models the logic of three screens of a React Native app that
compares smartphones, and proves properties of that model in Dafny.

- **Compare screen** (`Compare` module). It reads magnitudes such as
  "5,000 mAh" out of free-text spec values (`extractNumber`). It compares
  values loosely (`isEqualLoose`), picks the winner of a numeric row
  (`betterOf`), and sizes the magnitude meter (`meterWidth`). It computes
  what each `SpecRow` shows. It derives the comparison table (`rows`), the
  difference badge (`diffCount`) and the name search (`filtered`). The
  two-slot selection (`togglePick`, `onClear`, the reset in `load`) is the
  class `CompareScreen`, whose `picked` field the methods replace.
- **Admin panel** (`AdminPanel` module). The catalog tab and the users tab
  are two classes, `AdminProducts` and `AdminUsers`. Their fields are the
  components' state cells, and their methods are the handlers. Pure
  functions beside them cover the empty forms, the searches and the stable
  sorts (segment rank; role rank, then name). They also cover the validation
  and payload of each save.
- **User screen** (`UserScreen` module). It covers sign-in and registration
  on an uncontrolled form whose typed text lives in refs. The profile editor
  covers the changed-username test, the duplicate check that skips the
  user's own id, the conditional PATCH body, the fallback session record and
  the `saving` flag. The class `UserScreen` holds every state cell and ref.
- **Shared pieces**. `Records` holds the records, the JavaScript truthiness
  conventions (`x || ''`, `x || null`) and the one case-insensitive
  duplicate-username test. The source writes that test four times; here it
  is `Records.IsDuplicate`. `Text` holds `trim` with the JavaScript
  whitespace set, ASCII lower-casing, `includes`, `String(n)` for integers,
  and the lexicographic order used for `localeCompare`. `Seqs` holds
  `filter`, `some` and counting. `Sorting` holds a stable sort by a total
  preorder, the order ECMAScript requires of `Array.prototype.sort`.

Network calls are not executed. Their results are parameters of the
handlers:

- A GET of a list is a `Response`: an array, some other JSON value, or an
  exception. A `load` whose GET throws changes nothing (`Records.Loaded`).
- A write is a flag that says whether it resolved.
- The profile PATCH is a `PatchResponse`.

Stored sessions (`AsyncStorage`) are the `session` field of the user
screen. The image picker's answer is a set of parameters. Each
PRODUCTS_UPDATED event is an increment of the `updates` counter.

A digit anywhere in a value is read. The pattern in `extractNumber`
(Compare.js:55) finds the "1" in "CPU X1", so
`Compare.ExtractModelNameExample` proves that it reads as 1.

## Model

| member | source | states |
|---|---|---|
| Records.IdString | src/screens/AdminPanel.js:554 | `String(id)`: a numeric id prints as its decimal digits |
| Records.IdStringNumInjective | src/screens/AdminPanel.js:554 | two numeric ids print alike exactly when they are the same number |
| Records.IdStringEquatesNumberAndText | src/screens/AdminPanel.js:554 | comparing ids as strings equates id 42 with id "42", which `===` would not |
| Records.OrEmpty | src/screens/AdminPanel.js:501 | `x \|\| ''` is the string when present, else empty |
| Records.OrNull | src/screens/AdminPanel.js:163 | `x \|\| null` is present exactly when the string is non-empty, and then unchanged |
| Records.NameKey | src/screens/AdminPanel.js:509 | no contract of its own; `Records.IsDuplicate` and `Records.AliceKeyExample` state the trimmed, lower-cased stored name it yields |
| Records.Clashes | src/screens/AdminPanel.js:553-555 | no contract of its own; `Records.IsDuplicate` states the `some` over it; `Records.DuplicateExcludingImpliesPlain` and `Records.DuplicateIgnoresOwnRecord` state the exclusion |
| Records.IsDuplicate | src/screens/AdminPanel.js:553-555 | the lookup is a duplicate exactly when it is an array holding a record whose trimmed, lower-cased name equals the lower-cased name, other than the excluded id (ids compared as strings) |
| Records.Loaded | src/screens/Compare.js:204-206 | no contract of its own; the `load` methods (`Compare.CompareScreen.Load`, `AdminPanel.AdminProducts.Load`, `AdminPanel.AdminUsers.Load`) state the list it leaves: the array, `[]` for any other answer, and the old list when the GET throws |
| Records.DuplicateExcludingImpliesPlain | src/screens/AdminPanel.js:553-555 | excluding an id can only remove clashes |
| Records.DuplicateIgnoresOwnRecord | src/screens/User.js:138-142 | a list whose only same-named records carry the excluded id is no duplicate |
| Records.DuplicateIgnoresCaseExample | src/screens/AdminPanel.js:508-510 | a stored " Alice " clashes with "aLICE" |
| Records.DuplicateExcludesIdExample | src/screens/AdminPanel.js:553-555 | excluding id "1" removes the clash with the record of numeric id 1 |
| Text.Trim | src/screens/Compare.js:62 | `trim` is the slice of the input left after dropping the leading and trailing whitespace, and it neither starts nor ends with whitespace |
| Text.TrimIdempotent | src/screens/Compare.js:62 | trimming twice is trimming once |
| Text.TrimFixedPoints | src/screens/Compare.js:62 | a string without surrounding whitespace is its own trim; the trim is empty exactly when the string is all whitespace |
| Text.Lower | src/screens/Compare.js:62 | `toLowerCase` keeps the length and lower-cases each character |
| Text.LowerIdempotent | src/screens/Compare.js:62 | lower-casing twice is lower-casing once |
| Text.Contains | src/screens/Compare.js:230 | `includes` holds exactly when the query occurs at some position |
| Text.ContainsEmpty | src/screens/Compare.js:230 | every string includes the empty query |
| Text.IntToStringInjective | src/screens/AdminPanel.js:554 | distinct integers print differently |
| Text.LexLeTotal | src/screens/AdminPanel.js:595 | any two names are ordered one way or the other |
| Text.LexLeAntisymmetric | src/screens/AdminPanel.js:595 | names ordered both ways are equal |
| Text.LexLeTransitive | src/screens/AdminPanel.js:595 | the name order is transitive |
| Seqs.Filter | src/screens/Compare.js:246 | `filter` keeps only passing elements of the input, and every passing element |
| Seqs.FilterIsSubsequence | src/screens/Compare.js:246 | `filter` keeps the input's order |
| Seqs.CountWhere | src/screens/Compare.js:235 | no contract of its own; `Seqs.CountWhereIsFilterLength` states that it counts the elements `filter` keeps |
| Seqs.CountWhereIsFilterLength | src/screens/Compare.js:235 | a counting `reduce` from `acc` equals `acc` plus the number of elements `filter` keeps |
| Seqs.Any | src/screens/AdminPanel.js:508 | `some` holds exactly when some element passes |
| Sorting.SortBy | src/screens/AdminPanel.js:216 | the sorted copy is a permutation of the input |
| Sorting.SortBySorted | src/screens/AdminPanel.js:216 | under a total preorder the copy is sorted |
| Sorting.SortByStable | src/screens/AdminPanel.js:216 | elements that compare equal keep their relative order |
| Compare.RemoveCommas | src/screens/Compare.js:54 | the result has no comma, has a digit exactly when the input does, and is the input when it had no comma |
| Compare.MatchNumber | src/screens/Compare.js:55 | the pattern matches exactly when there is a digit; the match is a non-empty digit run with a digit-only fraction |
| Compare.MatchOfInteger | src/screens/Compare.js:55 | the match starts at the first digit and takes the whole run when no ".digit" follows |
| Compare.MatchOfDecimal | src/screens/Compare.js:55 | with a point and a second run after the first, the match takes both |
| Compare.ExtractNumber | src/screens/Compare.js:52-57 | no number exactly for a missing value or one without a digit; otherwise a non-negative number |
| Compare.ExtractNumberOfInteger | src/screens/Compare.js:54-56 | a digit-free prefix, a digit run and a rest that does not continue the number read as the run's integer value |
| Compare.ExtractNumberOfDecimal | src/screens/Compare.js:54-56 | a run, a point and a second run read as the exact decimal they spell |
| Compare.ExtractNumberRoundTrip | src/screens/Compare.js:52-57 | reading the decimal rendering of a natural number gives the number back |
| Compare.ExtractIgnoresCommas | src/screens/Compare.js:54 | commas never affect the number read |
| Compare.ExtractBatteryExample | src/screens/Compare.js:52-57 | "5,000 mAh" reads as 5000 |
| Compare.ExtractDisplayExample | src/screens/Compare.js:52-57 | "6.67 นิ้ว" reads as 6.67 |
| Compare.ExtractModelNameExample | src/screens/Compare.js:55-56 | "CPU X1" reads as 1 |
| Compare.ExtractNoNumberExample | src/screens/Compare.js:53-56 | a missing value, "" and "AMOLED" read as no number |
| Compare.IsEqualLoose | src/screens/Compare.js:59-63 | both missing are equal; exactly one missing is unequal |
| Compare.IsEqualLooseEquivalence | src/screens/Compare.js:59-63 | loose equality is reflexive, symmetric and transitive |
| Compare.IsEqualLoosePaddedExample | src/screens/Compare.js:62 | " 8GB " is loosely equal to "8gb" |
| Compare.IsEqualLooseSpellingExample | src/screens/Compare.js:60-62 | "8" and "8.0" are not loosely equal, and a missing value is not equal to "8" |
| Compare.BetterOf | src/screens/Compare.js:65-71 | the verdict is -1 exactly when both sides have numbers and A's is larger, 1 exactly when B's is larger, else 0 |
| Compare.BetterOfAntisymmetric | src/screens/Compare.js:65-71 | swapping the sides negates the verdict |
| Compare.BetterOfExamples | src/screens/Compare.js:65-71 | 5000 mAh beats "CPU X1"; 6.67 beats 1; a side with no number gives no winner |
| Compare.Round | src/screens/Compare.js:75 | `Math.round` is the integer within half of the value, halves rounding up |
| Compare.Clamp | src/screens/Compare.js:75 | the clamp lies in [6, 100], leaves values there unchanged, and takes anything below 6 to 6 and anything above 100 to 100 |
| Compare.MeterWidth | src/screens/Compare.js:73-76 | the width is 0 exactly when the value or the maximum is missing or the maximum is 0; otherwise it lies in [6, 100] |
| Compare.MeterWidthSmallShare | src/screens/Compare.js:75 | a share that rounds below 6% draws exactly 6, as a "1TB" ROM (read as 1) does against "128GB" |
| Compare.MeterWidthLargeShare | src/screens/Compare.js:75 | a share that rounds above 100% draws exactly 100 |
| Compare.MeterWidthUnclamped | src/screens/Compare.js:75 | between the clamps the width is the rounded percentage |
| Compare.MeterWidthOfZero | src/screens/Compare.js:75 | a zero value still draws the minimum width 6 |
| Compare.MeterWidthFull | src/screens/Compare.js:75 | a value that reaches the maximum fills the meter |
| Compare.MeterWidthMonotone | src/screens/Compare.js:75 | for a positive maximum a larger value never draws a narrower meter |
| Compare.MeterWidthExamples | src/screens/Compare.js:73-76 | 1 of 1000 and 1 of 128 draw 6, 1000 of 1000 draws 100, 500 of 1000 draws 50, and missing or 0 draws 0 |
| Compare.SpecRow | src/screens/Compare.js:161-191 | no contract of its own; `Compare.SpecRowNonNumeric`, `Compare.SpecRowScale` and `Compare.SpecRowWinnerMeter` state the difference flag, winner, scale and meters it computes |
| Compare.SpecRowNonNumeric | src/screens/Compare.js:161-166 | a non-numeric row has no winner, no scale and no meter, and is marked different exactly when the values are not loosely equal |
| Compare.SpecRowScale | src/screens/Compare.js:163-187 | a numeric row's winner is `betterOf`; the scale is the larger number, with missing as 0, and is absent exactly when both are 0; meters are drawn exactly when there is a scale |
| Compare.SpecRowWinnerMeter | src/screens/Compare.js:172-187 | the winner's meter is full, and a drawn meter for a side without a number has width 0 |
| Compare.RowsFor | src/screens/Compare.js:244 | one row per schema field, in order, holding both products' values |
| Compare.DiffCount | src/screens/Compare.js:233-236 | no contract of its own; `Compare.DiffCountIsDiffRows` states that it is the number of rows the difference filter keeps, and `Compare.DiffCountSymmetric` that it is symmetric |
| Compare.CountIsDiffRows | src/screens/Compare.js:235 | over any field list, the counting fold equals the number of differing rows |
| Compare.DiffCountIsDiffRows | src/screens/Compare.js:233-236 | with both products picked the badge equals the number of rows the difference filter keeps; it is at most the schema size, and 0 unless both are picked |
| Compare.Rows | src/screens/Compare.js:243-247 | no contract of its own; `Compare.RowsUnfiltered` and `Compare.RowsDiffOnly` state the table with and without the difference filter |
| Compare.RowsUnfiltered | src/screens/Compare.js:243-245 | without the filter, or with a product missing, the table is every schema row in order |
| Compare.RowsDiffOnly | src/screens/Compare.js:245-246 | with the filter the table is an order-preserving sub-list holding every differing row and only those |
| Compare.CountSymmetric | src/screens/Compare.js:235 | over any field list, the count is symmetric in the two products, and 0 for a product against itself |
| Compare.DiffCountSymmetric | src/screens/Compare.js:233-236 | swapping the picks keeps the badge, and a product against itself has no differences |
| Compare.FilterByName | src/screens/Compare.js:227-231 | no contract of its own; `Compare.FilterByNameSpec` and `Compare.FilterByNameBlank` state which products it keeps, in order |
| Compare.FilterByNameSpec | src/screens/Compare.js:227-231 | for a non-empty query the search is an order-preserving sub-list holding exactly the products whose lower-cased name contains the trimmed, lower-cased query |
| Compare.FilterByNameBlank | src/screens/Compare.js:228-230 | a query of only whitespace, like the empty one, hides nothing |
| Compare.Toggled | src/screens/Compare.js:213-219 | no contract of its own; `Compare.ToggledFlips`, `Compare.ToggledEvictsOldest`, `Compare.ToggledAppends`, `Compare.ToggledRemoves` and `Compare.ToggleTwice` state the new selection |
| Compare.ToggledFlips | src/screens/Compare.js:213-219 | toggling flips whether the item is picked, and keeps at most two picks with distinct ids |
| Compare.ToggledEvictsOldest | src/screens/Compare.js:216-217 | a third pick drops the oldest |
| Compare.ToggledAppends | src/screens/Compare.js:216 | with room left a new pick is appended |
| Compare.ToggledRemoves | src/screens/Compare.js:215-216 | toggling a picked product removes exactly that pick and keeps the rest in order |
| Compare.ToggleTwice | src/screens/Compare.js:213-219 | toggling a new product twice, with room left, restores the selection |
| Compare.ProductsUrl | src/screens/Compare.js:203 | "all" fetches the whole catalog; any other segment fetches that segment |
| Compare.ProductsUrlInjective | src/screens/Compare.js:203 | different segments use different endpoints |
| Compare.CompareScreen.constructor | src/screens/Compare.js:195-199 | the screen starts on "midrange" with no data, no picks, no query, and the difference filter off |
| Compare.CompareScreen.A | src/screens/Compare.js:224 | product A exists exactly when something is picked |
| Compare.CompareScreen.B | src/screens/Compare.js:225 | product B exists exactly when two products are picked |
| Compare.CompareScreen.Badge | src/screens/Compare.js:254-256 | the badge shows exactly when both are picked, with at most the schema size |
| Compare.CompareScreen.Shown | src/screens/Compare.js:227-231 | no contract of its own; the cards shown are `Compare.FilterByName` of the data and query, which `Compare.FilterByNameSpec` describes |
| Compare.CompareScreen.Table | src/screens/Compare.js:243-247 | no contract of its own; the table is `Compare.Rows` of the picks and the filter switch, which `Compare.RowsUnfiltered` and `Compare.RowsDiffOnly` describe |
| Compare.CompareScreen.Load | src/screens/Compare.js:201-209 | `load` sets the list (empty for an answer that is not an array), clears picks and query, and keeps segment and filter; a GET that throws changes nothing |
| Compare.CompareScreen.SelectSegment | src/screens/Compare.js:211 | a new segment reloads; reselecting the current one, or a reload whose GET throws, changes nothing but the segment |
| Compare.CompareScreen.TogglePick | src/screens/Compare.js:213-222 | the picks become the toggled selection, the item's picked state flips, and the selection stays valid |
| Compare.CompareScreen.OnClear | src/screens/Compare.js:238-241 | clearing drops both picks and the badge, and nothing else |
| Compare.CompareScreen.SetQuery | src/screens/Compare.js:264 | typing sets only the query |
| Compare.CompareScreen.ToggleDiffOnly | src/screens/Compare.js:121 | the switch flips only the filter |
| AdminPanel.SpecFieldsAgreeWithCompare | src/screens/AdminPanel.js:25-33 | the admin edits the comparison's seven fields, with the same keys, titles and order |
| AdminPanel.EmptyProductForm | src/screens/AdminPanel.js:72-77 | no contract of its own; `AdminPanel.EmptyProductFormSpec` states its fields |
| AdminPanel.CanSaveProduct | src/screens/AdminPanel.js:147 | no contract of its own; the product `SaveAdd` and `SaveEdit` send a request exactly when it holds; `AdminPanel.EmptyProductFormSpec` states that the empty form fails it |
| AdminPanel.EmptyProductFormSpec | src/screens/AdminPanel.js:72-77 | the empty form has an empty name, segment "midrange", no image and exactly the seven spec keys mapped to "", and cannot be saved |
| AdminPanel.EditFormOf | src/screens/AdminPanel.js:158-165 | the edit form copies the item's name, segment and specs, with its image or null |
| AdminPanel.ApplyProductEdit | src/screens/AdminPanel.js:293-314 | no contract of its own; `AdminPanel.ApplyProductEditFrame` states that each input changes its own field only |
| AdminPanel.ApplyProductEditFrame | src/screens/AdminPanel.js:293-314 | each input changes its own field of the form and nothing else |
| AdminPanel.PickedImage | src/screens/AdminPanel.js:139-144 | a pick counts exactly when it is not cancelled and returned non-empty data |
| AdminPanel.ProductMatches | src/screens/AdminPanel.js:205-206 | no contract of its own; `AdminPanel.FilterProductsSpec` states the name-or-segment test it makes |
| AdminPanel.FilterProducts | src/screens/AdminPanel.js:201-209 | no contract of its own; `AdminPanel.FilterProductsSpec` states which items it keeps, in order |
| AdminPanel.FilterProductsSpec | src/screens/AdminPanel.js:201-209 | a blank trimmed query keeps the list; otherwise an order-preserving sub-list holding exactly the items whose lower-cased name or segment contains the query |
| AdminPanel.ToggleSegSort | src/screens/AdminPanel.js:245 | no contract of its own; `AdminPanel.ToggleSegSortInvolution` states that it flips the direction |
| AdminPanel.ToggleSegSortInvolution | src/screens/AdminPanel.js:245 | the sort button flips the direction, and twice restores it |
| AdminPanel.SegmentRank | src/screens/AdminPanel.js:212-218 | no contract of its own; `AdminPanel.SegmentRankOrders` states both rank tables and the 99 of other segments |
| AdminPanel.SegmentRankOrders | src/screens/AdminPanel.js:212-218 | ascending is budget < midrange < flagship, descending the reverse; other segments rank 99 under both |
| AdminPanel.ProductLe | src/screens/AdminPanel.js:216-219 | no contract of its own; `AdminPanel.ProductLeTotalPreorder` states that it is a total preorder |
| AdminPanel.ProductLeTotalPreorder | src/screens/AdminPanel.js:216-219 | the rank comparator is a total preorder |
| AdminPanel.SortProducts | src/screens/AdminPanel.js:211-221 | no contract of its own; `AdminPanel.SortProductsSpec` states that it is a stable permutation ordered by segment rank |
| AdminPanel.SortProductsSpec | src/screens/AdminPanel.js:211-221 | the sorted list is a permutation with ranks non-decreasing, and items of equal rank keep their order |
| AdminPanel.ToggleRoleSort | src/screens/AdminPanel.js:617 | no contract of its own; `AdminPanel.ToggleRoleSortInvolution` states that it flips the order |
| AdminPanel.ToggleRoleSortInvolution | src/screens/AdminPanel.js:617 | the role button flips the order, and twice restores it |
| AdminPanel.RoleRank | src/screens/AdminPanel.js:590-593 | no contract of its own; `AdminPanel.RoleRankOrders` states both role tables and the 99 of other roles |
| AdminPanel.RoleRankOrders | src/screens/AdminPanel.js:590-593 | the two orders swap admin and user; any other role ranks 99 |
| AdminPanel.UserLe | src/screens/AdminPanel.js:591-596 | no contract of its own; `AdminPanel.UserLeTotalPreorder` states that it is a total preorder, and `AdminPanel.UserTies` when two users tie |
| AdminPanel.UserLeTotalPreorder | src/screens/AdminPanel.js:591-596 | the rank-then-name comparator is a total preorder |
| AdminPanel.UserTies | src/screens/AdminPanel.js:594-595 | two users compare equal exactly when rank and name agree |
| AdminPanel.SortUsers | src/screens/AdminPanel.js:589-597 | no contract of its own; `AdminPanel.SortUsersSpec` and `AdminPanel.SortUsersStable` state that it is a stable permutation ordered by role rank, then name |
| AdminPanel.SortUsersSpec | src/screens/AdminPanel.js:589-597 | the sorted list is a permutation ordered by rank, then by name; users that compare equal keep their order |
| AdminPanel.SortUsersStable | src/screens/AdminPanel.js:591-596 | users with equal rank and name keep their relative order |
| AdminPanel.UserMatches | src/screens/AdminPanel.js:586 | no contract of its own; `AdminPanel.FilterUsersSpec` states the name test it makes |
| AdminPanel.FilterUsers | src/screens/AdminPanel.js:586 | no contract of its own; `AdminPanel.FilterUsersSpec` states which users it keeps, in order |
| AdminPanel.FilterUsersSpec | src/screens/AdminPanel.js:586 | the search is an order-preserving sub-list holding exactly the users whose lower-cased name contains the lower-cased, untrimmed query; the empty query keeps exactly the users that have a name |
| AdminPanel.EmptyUserForm | src/screens/AdminPanel.js:422-438 | no contract of its own; the form `createAddForm` and `createEditForm` build: empty name and password, role "user", no image; the users-tab constructor, `OpenAdd`, `ClearAdd`, `FinishAdd` and `FinishEdit` state where it is used |
| AdminPanel.RoleOrUser | src/screens/AdminPanel.js:532 | `role_type \|\| 'user'` |
| AdminPanel.UserEditFormOf | src/screens/AdminPanel.js:528-536 | the edit form holds the stored name, the role or "user", the image or null, and an empty password |
| AdminPanel.ApplyUserEdit | src/screens/AdminPanel.js:664-675 | no contract of its own; `AdminPanel.ApplyUserEditFrame` states that each input changes its own field only |
| AdminPanel.ApplyUserEditFrame | src/screens/AdminPanel.js:664-675 | each input changes its own field; the dropdown keeps the role "admin" or "user" |
| AdminPanel.AddUserOutcome | src/screens/AdminPanel.js:500-523 | no contract of its own; `AdminPanel.AddUserOutcomeSpec` states each outcome, and `UserScreen.RegisterMatchesAdminAdd` ties it to registration |
| AdminPanel.AddUserOutcomeSpec | src/screens/AdminPanel.js:500-519 | refused for a blank trimmed name or empty password; a duplicate exactly when an array lookup holds a clashing record; saved exactly when filled, not a duplicate and both requests resolve, with the trimmed name in the body |
| AdminPanel.EditUserOutcome | src/screens/AdminPanel.js:546-576 | no contract of its own; `AdminPanel.EditUserOutcomeSpec`, `AdminPanel.EditUserPatchBody` and `AdminPanel.EditUserKeepsOwnName` state each outcome and the body |
| AdminPanel.EditUserOutcomeSpec | src/screens/AdminPanel.js:546-568 | refused exactly for a blank trimmed name; a duplicate exactly when a record other than the edited id clashes; saved exactly when filled, not a duplicate and both requests resolve |
| AdminPanel.EditUserPatchBody | src/screens/AdminPanel.js:561-566 | the PATCH carries the trimmed name, the role and the image, and the password exactly when one was typed |
| AdminPanel.EditUserKeepsOwnName | src/screens/AdminPanel.js:553-555 | keeping one's own name is never a duplicate |
| AdminPanel.AdminProducts.constructor | src/screens/AdminPanel.js:79-91 | the tab starts empty, ascending, with both dialogs closed on empty forms |
| AdminPanel.AdminProducts.Shown | src/screens/AdminPanel.js:201-221 | no contract of its own; the list shown is `AdminPanel.SortProducts` of `AdminPanel.FilterProducts`, which `AdminPanel.SortProductsSpec` and `AdminPanel.FilterProductsSpec` describe |
| AdminPanel.AdminProducts.Load | src/screens/AdminPanel.js:93-96 | `load` sets only the list, empty for an answer that is not an array; a GET that throws changes nothing |
| AdminPanel.AdminProducts.SetQuery | src/screens/AdminPanel.js:231 | typing sets only the query |
| AdminPanel.AdminProducts.FlipSegSort | src/screens/AdminPanel.js:245 | the button flips only the direction |
| AdminPanel.AdminProducts.OpenAdd | src/screens/AdminPanel.js:134-137 | a fresh form in a visible dialog |
| AdminPanel.AdminProducts.CloseAdd | src/screens/AdminPanel.js:284 | closing hides the dialog and keeps the form |
| AdminPanel.AdminProducts.EditAddForm | src/screens/AdminPanel.js:293-314 | an input applies its edit to the add form only |
| AdminPanel.AdminProducts.PickImageAdd | src/screens/AdminPanel.js:139-144 | a counted pick sets the form's image; any other pick changes nothing |
| AdminPanel.AdminProducts.ClearAddForm | src/screens/AdminPanel.js:155 | resets the add form only |
| AdminPanel.AdminProducts.SaveAdd | src/screens/AdminPanel.js:146-153 | nothing is sent and nothing changes without a name; otherwise the form is POSTed, and once that resolves the event fires, the dialog closes, the form resets and the list reloads |
| AdminPanel.AdminProducts.OpenEdit | src/screens/AdminPanel.js:158-167 | the edited id and the form come from the item, and the dialog opens |
| AdminPanel.AdminProducts.CloseEdit | src/screens/AdminPanel.js:348 | closing hides the dialog only |
| AdminPanel.AdminProducts.EditEditForm | src/screens/AdminPanel.js:357-387 | an input applies its edit to the edit form only |
| AdminPanel.AdminProducts.PickImageEdit | src/screens/AdminPanel.js:169-174 | a counted pick sets the edit form's image; any other pick changes nothing |
| AdminPanel.AdminProducts.SaveEdit | src/screens/AdminPanel.js:176-184 | as the add save, PATCHing "/products/" plus the printed id, and also clearing the edited id |
| AdminPanel.AdminProducts.Delete | src/screens/AdminPanel.js:186-199 | only a confirmed deletion sends the DELETE; once it resolves the event fires and the list reloads |
| AdminPanel.AdminUsers.constructor | src/screens/AdminPanel.js:416-439 | the tab starts empty, admin first, with both dialogs closed on empty forms |
| AdminPanel.AdminUsers.Shown | src/screens/AdminPanel.js:586-597 | no contract of its own; the list shown is `AdminPanel.SortUsers` of `AdminPanel.FilterUsers`, which `AdminPanel.SortUsersSpec` and `AdminPanel.FilterUsersSpec` describe |
| AdminPanel.AdminUsers.Load | src/screens/AdminPanel.js:441 | `load` sets only the list, empty for an answer that is not an array; a GET that throws changes nothing |
| AdminPanel.AdminUsers.SetQuery | src/screens/AdminPanel.js:607 | typing sets only the query |
| AdminPanel.AdminUsers.FlipRoleSort | src/screens/AdminPanel.js:617 | the button flips only the role order |
| AdminPanel.AdminUsers.OpenAdd | src/screens/AdminPanel.js:491 | a fresh form in a visible dialog |
| AdminPanel.AdminUsers.CloseAdd | src/screens/AdminPanel.js:655 | closing hides the dialog only |
| AdminPanel.AdminUsers.EditAddForm | src/screens/AdminPanel.js:664-675 | an input applies its edit to the add form only |
| AdminPanel.AdminUsers.PickImageAdd | src/screens/AdminPanel.js:493-498 | a counted pick sets the form's image; any other pick changes nothing |
| AdminPanel.AdminUsers.ClearAdd | src/screens/AdminPanel.js:525 | resets the add form only |
| AdminPanel.AdminUsers.FinishAdd | src/screens/AdminPanel.js:517-519 | after a saved user, the dialog closes, the form resets and the list reloads, and nothing else changes |
| AdminPanel.AdminUsers.SaveAdd | src/screens/AdminPanel.js:500-523 | the outcome is the add decision on the form; once the checks pass, the form with the trimmed name is POSTed to "/users"; only a saved user closes the dialog, resets the form and reloads; any other outcome changes nothing |
| AdminPanel.AdminUsers.OpenEdit | src/screens/AdminPanel.js:528-537 | the edited id and the form come from the user, and the dialog opens |
| AdminPanel.AdminUsers.CloseEdit | src/screens/AdminPanel.js:703 | closing hides the dialog only |
| AdminPanel.AdminUsers.EditEditForm | src/screens/AdminPanel.js:712-723 | an input applies its edit to the edit form only |
| AdminPanel.AdminUsers.PickImageEdit | src/screens/AdminPanel.js:539-544 | a counted pick sets the edit form's image; any other pick changes nothing |
| AdminPanel.AdminUsers.FinishEdit | src/screens/AdminPanel.js:569-572 | after a saved edit, the dialog closes, the edited id clears, the form resets and the list reloads, and nothing else changes |
| AdminPanel.AdminUsers.SaveEdit | src/screens/AdminPanel.js:546-576 | the payload built field by field gives the edit decision; once the checks pass, it is PATCHed to "/users/" plus the printed edited id; only a saved edit closes the dialog, clears the id, resets the form and reloads |
| AdminPanel.AdminUsers.DeleteUser | src/screens/AdminPanel.js:578-583 | only a confirmed deletion sends the DELETE; once it resolves the list reloads |
| UserScreen.LoginCredentials | src/screens/User.js:32-34 | a request is sent exactly when the trimmed name and the untrimmed password are non-empty, and carries those |
| UserScreen.TypeAuth | src/screens/User.js:414-430 | typing sets the ref of its own input, keeps the other, and keeps the form in sync |
| UserScreen.ClearAuthAsWritten | src/screens/User.js:38 | no contract of its own; the clear as written: the key bump (also at line 71) remounts the inputs empty and leaves the refs; `UserScreen.StaleCredentialsAfterClear` states what that leaves |
| UserScreen.StaleCredentialsAfterClear | src/screens/User.js:36-40 | as written, a clear empties both inputs while the refs keep the credentials, which still sign in |
| UserScreen.StaleCredentialsExample | src/screens/User.js:67-71 | after registering "alice"/"secret", the empty-looking form still sends those credentials |
| UserScreen.ClearAuth | src/screens/User.js:38 | no contract of its own; the corrected clear; `UserScreen.ClearAuthSpec` states that the form it leaves is in sync, empty and sends nothing |
| UserScreen.ClearAuthSpec | src/screens/User.js:38 | the intended clear leaves an empty form in sync that can send nothing, with the same inputs as the clear as written |
| UserScreen.EmptyLookingFormSendsNothing | src/screens/User.js:32-34 | a form in sync with empty inputs sends nothing |
| UserScreen.RegisterOutcome | src/screens/User.js:49-75 | no contract of its own; `UserScreen.RegisterOutcomeSpec`, `UserScreen.RegisterRefusesTakenName` and `UserScreen.RegisterMatchesAdminAdd` state each outcome |
| UserScreen.RegisterOutcomeSpec | src/screens/User.js:49-71 | refused exactly when sign-in would send nothing; saved exactly when filled, not a duplicate and both requests resolve, as a "user" with the trimmed name, the typed password and no image |
| UserScreen.RegisterRefusesTakenName | src/screens/User.js:57-65 | refused as a duplicate exactly when a record of an array lookup clashes with the filled-in name |
| UserScreen.RegisterMatchesAdminAdd | src/screens/User.js:49-68 | self-registration decides as the admin's add does on a "user" form without image |
| UserScreen.UsernameChanged | src/screens/User.js:130-131 | no contract of its own; `UserScreen.UsernameChangedIffNoSelfClash` states that the name counts as changed exactly when one's own record would not clash with it |
| UserScreen.UsernameChangedIffNoSelfClash | src/screens/User.js:130-131 | the name counts as changed exactly when one's own record would not clash with it |
| UserScreen.ProfilePayload | src/screens/User.js:152-156 | the PATCH body always has the image and never the role; the name exactly when it changed; the password exactly when one was typed |
| UserScreen.ProfileEditOutcome | src/screens/User.js:115-158 | no contract of its own; `UserScreen.ProfileEditOutcomeSpec`, `UserScreen.PatchOutcome`, `UserScreen.UnchangedNameSkipsLookup` and `UserScreen.CaseOnlyRename` state each outcome |
| UserScreen.ProfileEditOutcomeSpec | src/screens/User.js:115-158 | refused exactly for a blank trimmed name; a duplicate exactly when the name changed and a record other than one's own clashes; saved exactly when filled, the PATCH resolves and, for a changed name, the lookup succeeds without a clash; the body is the payload |
| UserScreen.PatchOutcome | src/screens/User.js:158 | a refusal does not depend on the PATCH; after the checks a failed PATCH is a failed request |
| UserScreen.UnchangedNameSkipsLookup | src/screens/User.js:133-149 | with the name unchanged the lookup's answer cannot matter |
| UserScreen.CaseOnlyRename | src/screens/User.js:130-160 | re-typing one's own name in another case saves without a username, and the stored spelling is kept |
| UserScreen.FallbackUser | src/screens/User.js:159-160 | the fallback record keeps `me`'s id and role, takes the payload's image and password, and the new name only if it changed |
| UserScreen.FallbackUserOfSavedEdit | src/screens/User.js:152-160 | the fallback of a saved edit carries exactly the edit |
| UserScreen.NextUser | src/screens/User.js:159-160 | `updated \|\| fallback`: a returned record wins, otherwise the fallback |
| UserScreen.EditedUser | src/screens/User.js:159-160 | no contract of its own; `UserScreen.NextUser` states the record it picks, and `UserScreen.FallbackUserOfSavedEdit` the fallback's fields |
| UserScreen.PrepareProfileEdit | src/screens/User.js:120-156 | the checks and the payload built field by field give the edit decision for a PATCH that resolves: a refusal is that decision, otherwise the decision saves the payload |
| UserScreen.UserScreen.constructor | src/screens/User.js:13-19 | signed out, sign-in shown, empty form and refs, editor closed, not saving |
| UserScreen.UserScreen.Refresh | src/screens/User.js:21-24 | the stored session becomes the signed-in user |
| UserScreen.UserScreen.TypeAuthInput | src/screens/User.js:414-430 | typing updates one input and its ref |
| UserScreen.UserScreen.ToggleRegister | src/screens/User.js:456 | the link flips only between sign-in and registration |
| UserScreen.UserScreen.ResetAuthForm | src/screens/User.js:38 | the corrected clear: empties the form and its refs and bumps its key; line 38 itself only bumps the key |
| UserScreen.UserScreen.HandleLogin | src/screens/User.js:31-44 | sends the sign-in credentials; a non-empty list signs in and stores its first record and empties the form; anything else changes nothing |
| UserScreen.UserScreen.HandleLogout | src/screens/User.js:46 | the session is removed and the user signed out; a shown profile gives way to a newly mounted sign-in form, here emptied refs included |
| UserScreen.UserScreen.HandleRegister | src/screens/User.js:49-75 | the outcome is the registration decision on the refs; once the checks pass, the new account is POSTed to "/users"; a registration switches back to sign-in with an empty form; anything else changes nothing |
| UserScreen.UserScreen.OpenEdit | src/screens/User.js:87-94 | nothing without a user; otherwise the stored name or "", an empty password and the stored image or null, inputs mounted anew |
| UserScreen.UserScreen.TypeEditInput | src/screens/User.js:345-360 | typing sets only the ref of its own input |
| UserScreen.UserScreen.PickImage | src/screens/User.js:96-110 | a refused permission or a cancelled pick changes nothing; otherwise the data or null becomes the image |
| UserScreen.UserScreen.ClearAvatar | src/screens/User.js:112 | the image becomes null |
| UserScreen.UserScreen.CloseEdit | src/screens/User.js:380 | closing hides the editor only |
| UserScreen.UserScreen.SetSaving | src/screens/User.js:118 | sets only the `saving` flag |
| UserScreen.UserScreen.CommitEdit | src/screens/User.js:162-164 | the record is stored and signed in, and the editor closes |
| UserScreen.UserScreen.SaveEdit | src/screens/User.js:115-171 | nothing without a user; otherwise the outcome is the edit decision; once the checks pass, the payload is PATCHed to "/users/" plus the printed id of `me`; `saving` is false on every way out, and only a saved edit signs in as the returned record or the fallback and closes the editor |

## Left out

- Network I/O (`apiGet`, `apiPost`, `apiPatch`, `apiDel`) and the server's filtering and credential checks. Responses are parameters of the handlers.
- `AsyncStorage` persistence is the `session` field. JSON encoding, and a stored value that does not parse, are not modelled.
- Navigation and the focus listener. `HandleLogin` does not model the jump to the home tab, and `Refresh` is called by whoever drives the screen.
- `Alert`, `Vibration`, `LayoutAnimation` and rendering (JSX, styles, `Modal`). The dialogs are the `addVisible`/`editVisible`/`editOpen` flags. `DeviceEventEmitter` is the `updates` counter.
- The image picker is its answer (`granted`, `canceled`, `base64`); only the first asset is read.
- The tab switcher of the admin panel's outer component holds no logic and is not modelled.
- Async ordering and races. A reload that is not awaited is applied at once, from the `reloaded` parameter.
- Floating point. `parseFloat`, the division and `Math.round` are exact reals, with round as floor(x + 1/2).
- Compare.MeterWidth: returns the integer percentage, not the string "N%".
- Unicode case mapping and collation. `toLowerCase` is ASCII only (`Text.Lower`), and `localeCompare` is lexicographic order on code points (`Text.LexLe`).
- JavaScript typing corner cases:
  - Keys such as "constructor" that the rank objects inherit are not modelled.
  - Non-string spec values and names are not modelled.
  - Null elements in response arrays are not modelled.
  - A truthy non-array answer to a list GET is not modelled; it is folded into "no list".
  - A truthy PATCH answer that is not a user record (`{}`, say) is not modelled.
- AdminPanel.AdminProducts.SaveAdd, AdminPanel.AdminProducts.SaveEdit, AdminPanel.AdminProducts.Delete, AdminPanel.AdminUsers.DeleteUser: a request that throws is uncaught. The model leaves the state unchanged; it does not model the unhandled rejection itself.
- The reload after a save or a deletion is not awaited. When its GET throws, the model keeps the old list (`Records.Loaded`); the unhandled rejection itself is not modelled.
- The duplicate lookup's query string (`encodeURIComponent` of the name) is not modelled. Only the writes are returned as requests.
- UserScreen.UserScreen.HandleLogin: a lookup that throws is uncaught, and the model leaves the state unchanged.
- UserScreen.UserScreen.ResetAuthForm: this is the corrected clear (`ClearAuth`). It empties the refs, which the key bump at User.js:38 does not. The clear as written is `UserScreen.ClearAuthAsWritten`; see Findings.
- UserScreen.UserScreen.HandleLogin, HandleRegister, HandleLogout: these use the corrected clear (`ClearAuth`). The clear as written is modelled separately; see Findings.

## Findings

| source | as written | input that shows it | evidently intended | confidence | as-written member | corrected member |
|---|---|---|---|---|---|---|
| src/screens/User.js:36-40 | A sign-in or registration "clears inputs" by bumping the key of the uncontrolled inputs (`key={u-${formKey}}` at lines 412 and 428, with `defaultValue=""`). This remounts them empty, but `usernameRef` and `passwordRef` keep the typed text. | Register "alice" with "secret". The form is reset and looks empty. Press the sign-in button without typing: `handleLogin` reads "alice"/"secret" from the refs and signs in. Signing in and then out behaves the same way. | The refs are emptied together with the inputs, so an empty-looking form sends nothing. | not executed | UserScreen.StaleCredentialsAfterClear | UserScreen.ClearAuthSpec |
