# Voice shopping assistant: a verified model of its list logic

The voice shopping assistant is a browser application. It keeps a shopping
list as a `ShoppingApp` object (script.js) backed by a `ShoppingDatabase`
(firebase-config.js), suggests items through `AISuggestions`
(ai-suggestions.js), and listens for spoken commands through `VoiceHandler`
(voice-handler.js). This project models those four objects in Dafny and
proves what they promise:

- adding a name already on the list (ignoring case) merges into that entry
  when the new total stays positive; otherwise the entry matched by
  substring is removed;
- removal is by substring and removes every entry with the chosen id;
- within each category group, items keep their list order;
- the statistics agree with an independent count;
- rule-based suggestions are deduplicated, capped and have distinct names;
- a transcript is classified by an ordered two-phrase test.

Modules, one per concern:

- `Common`: `Option`, `Result` and `slice(0, n)`. It also holds the
  counting dictionary built with `counts[k] = (counts[k] || 0) + 1`. That
  dictionary is a sequence of entries in the insertion order of the
  object's keys.
- `Text`: `toLowerCase`, `includes`, `trim` and the decimal rendering of a
  count.
- `LocalStore`: firebase-config.js on its local-storage branch. The
  `ShoppingDatabase` class has one field, `stored`, the content of the
  storage key.
- `ShoppingList`: script.js. The `ShoppingApp` class has fields `items`,
  `categories` and `isLoading`. Each operation's effect is stated as a
  function of the old list (`AfterAdd`, `AfterRemove`, …), with lemmas
  about those functions.
- `Suggestions`: ai-suggestions.js. Each generator is a function that
  specifies it, and the loops appear as methods proved equal to those
  functions.
- `Voice`: voice-handler.js. The `VoiceHandler` class has fields
  `isListening`, `isSupported` and `commandHistory`.

Inputs the program takes from its environment are parameters of the model:

- `writeOk`: whether writing the storage key succeeds.
- `historyFails`: whether forwarding a new item to the suggestion history
  throws.
- `confirmed`: the user's answer to the confirmation dialog.
- the month of the year.
- `hasApiKey` and the parsed reply of the language model.
- which dependencies are present.
- the transcript, confidence and clock reading of a recognition result.

`localeCompare` is a function parameter.

The code is followed where it differs from its own comments or from what
the feature names suggest:

- `removeItem` matches by substring, so `updateItemQuantity(id, 0)` can
  remove a different entry than the one with that id.
- The database stores a new record with `completed` false, whatever the
  caller passed.
- `addItem` reports an error after storing the item when the history call
  throws.
- `addItem` of a listed name with a total of 0 or less goes through
  `updateItemQuantity` to `removeItem` by name, so nothing is merged and the
  removed entry is the first whose name includes the listed one.
- For a listed name, `addItem` changes the list even when the write fails:
  `updateItemQuantity` sets the quantity after `updateItem` returned false.

## Model

| member | source | states |
|---|---|---|
| Common.Take | ai-suggestions.js:153 | `slice(0, n)` yields the first `min(n, len)` elements, a prefix of the input |
| Common.KeyIndex | ai-suggestions.js:170 | the position of a key in the counting dictionary is the first one holding it; none exactly when the key is absent |
| Common.TallyFacts | ai-suggestions.js:168-171 | counting a list gives each key once, exactly the keys occurring, each with its number of occurrences, counts summing to the length |
| Common.TallyKeyOrder | ai-suggestions.js:168-176 | the counting dictionary enumerates its keys in the order of their first occurrence |
| Common.BumpSum | ai-suggestions.js:170 | one more `counts[k] = (counts[k] \|\| 0) + 1` raises the total count by exactly one |
| Common.BumpKeys | ai-suggestions.js:170 | counting `x` adds `x` to the keys and no other key |
| Text.LowerChar | voice-handler.js:83 | `toLowerCase` maps A–Z to a–z and leaves every other character alone; the result is never an upper-case ASCII letter |
| Text.ToLower | voice-handler.js:83 | lower-casing keeps the length and maps every character by `LowerChar` |
| Text.ToLowerIdempotent | voice-handler.js:83 | lower-casing twice is lower-casing once |
| Text.ContainsSelf | script.js:152 | every string includes itself and the empty string |
| Text.ContainsAt | voice-handler.js:85 | a string includes every part that occurs in it at some position |
| Text.ContainsIffOccurs | voice-handler.js:85-88 | a string includes a part exactly when the part occurs in it at some position |
| Text.TrimEmptyIffBlank | script.js:90 | `s.trim() === ''` holds exactly when every character of `s` is JavaScript white space |
| Text.NatToString | ai-suggestions.js:180 | the decimal rendering of a count is a non-empty string of decimal digits, with a leading zero only for 0 (which renders as "0"), one character exactly below 10, whose value is the count |
| LocalStore.NewRecord | firebase-config.js:66-71 | the stored record carries the generated id, the caller's properties, and `completed` false |
| LocalStore.Apply | firebase-config.js:118 | the patch's properties overwrite the record's, the absent ones and the id are kept |
| LocalStore.FindById | firebase-config.js:116 | `findIndex` by id returns the first position with that id, or none when no record has it |
| LocalStore.WithoutId | firebase-config.js:139 | `filter` by id keeps exactly the records with another id, never lengthening the list |
| LocalStore.WithoutAbsentId | firebase-config.js:139 | filtering out an absent id leaves the list unchanged |
| LocalStore.WithoutPresentId | firebase-config.js:139 | filtering out a present id shortens the list |
| LocalStore.WithoutIdAppend | firebase-config.js:139 | filtering distributes over concatenation, so relative order is kept |
| LocalStore.GetStatus | firebase-config.js:183-188 | the status reports "Firebase Firestore" exactly when Firebase is enabled and "Local Storage" exactly when it is not |
| LocalStore.ShoppingDatabase.constructor | firebase-config.js:48-51 | the database starts with the given storage content |
| LocalStore.ShoppingDatabase.Items | firebase-config.js:172-180 | the stored list, or the empty list when nothing or unparsable text is stored |
| LocalStore.ShoppingDatabase.GetItems | firebase-config.js:83-101 | `getItems` returns the stored list, empty when nothing is stored |
| LocalStore.ShoppingDatabase.AddItem | firebase-config.js:54-80 | a successful write appends exactly one record (new id, `completed` false) and returns it; a failed write throws and stores nothing |
| LocalStore.ShoppingDatabase.UpdateItem | firebase-config.js:104-128 | the patch is merged into the first record with that id and true returned; an absent id or a failed write stores nothing and returns false |
| LocalStore.ShoppingDatabase.DeleteItem | firebase-config.js:131-147 | the list is written back without every record of that id; the result is true exactly when the write succeeds |
| LocalStore.ShoppingDatabase.ClearAllItems | firebase-config.js:150-169 | the storage key is removed, so a later read sees no items |
| ShoppingList.FindByName | script.js:95-97 | `find` by name ignoring case returns the first entry whose name equals the given one, or none |
| ShoppingList.FindIncluding | script.js:151-153 | `find` by substring ignoring case returns the first entry whose name includes the query, or none |
| ShoppingList.AddResultCases | script.js:85-144 | a blank name throws "Item name is required" and changes nothing; otherwise `addItem` fails only for a new name whose write fails or whose history call throws; a failed write of a new name leaves the list alone, while for a listed name the list changes whatever the write does |
| ShoppingList.AddReturnsAppendedEntry | script.js:118-136 | a successful add of a new name returns exactly the entry appended to the list |
| ShoppingList.AddReturnsExistingEntry | script.js:95-104 | adding a listed name returns that entry, with its id and name |
| ShoppingList.AddNewNameAppends | script.js:108-121 | a new name appends one entry and keeps the rest; its defaults are quantity 1, category 'Other' and priority 3, and it is not completed |
| ShoppingList.AddExistingNameMerges | script.js:95-104 | a listed name whose entry is the first with its id, when the new total stays positive, gets its quantity raised by the requested quantity (1 when missing or 0), and no other entry changes |
| ShoppingList.AddExistingNonPositiveRemoves | script.js:99-102 | a listed name whose new total is 0 or less merges nothing: the list becomes `removeItem` of that entry's name, a removal by substring |
| ShoppingList.AddKeepsNamesDistinct | script.js:94-104 | if no two entries share a name ignoring case, none do after `addItem` |
| ShoppingList.RemoveRemovesExactlyThatId | script.js:147-182 | `removeItem` removes exactly the entries whose id is that of the first entry including the query, or nothing when there is none |
| ShoppingList.SetQuantityChangesOnlyThatEntry | script.js:211-241 | a positive quantity is written into the first entry with that id and nowhere else; an absent id changes nothing |
| ShoppingList.ZeroQuantityCanRemoveAnotherEntry | script.js:213-218 | setting quantity 0 removes by the name's substring: with "Whole Milk" before "milk", zeroing "milk" removes "Whole Milk" |
| ShoppingList.FindByIdSameIds | script.js:187 | lookup by id depends on the ids only |
| ShoppingList.ToggleFlipsOnlyThatEntry | script.js:185-208 | toggling flips `completed` of the first entry with that id and nothing else; toggling twice restores the list |
| ShoppingList.WithoutIdKeepsDistinctNames | script.js:164 | filtering by id keeps names distinct |
| ShoppingList.StoreFollowsRemove | script.js:159-164 | with the list in step with the storage and the write succeeding, `removeItem` leaves the storage holding the list after the removal |
| ShoppingList.StoreFollowsToggle | script.js:187-196 | with the list in step with the storage and the write succeeding, toggling leaves the storage holding the toggled list |
| ShoppingList.StoreFollowsSetQuantity | script.js:213-230 | with the list in step with the storage and the write succeeding, a quantity update leaves the storage holding the updated list |
| ShoppingList.StoreFollowsAdd | script.js:95-121 | with the list in step with the storage and the write succeeding, `addItem` leaves the storage holding the list after the add |
| ShoppingList.FailedWriteKeepsStore | firebase-config.js:54-147 | when the write fails, removing, toggling, updating a quantity and adding all leave the storage as it was |
| ShoppingList.Categories | script.js:351 | every item's group is its category, or 'Other' when it has none |
| ShoppingList.GroupIndex | script.js:352 | the group of a category is the first one with that key, or none |
| ShoppingList.GroupingMirrorsTally | script.js:347-359 | the groups agree, key by key and size by count, with the per-category counts of `getStatistics` |
| ShoppingList.GroupingPartitions | script.js:347-359 | no category has two groups; the groups are exactly the categories present; the group sizes add up to the number of items |
| ShoppingList.GroupMembers | script.js:349-356 | each group holds exactly the positions of the items of its category |
| ShoppingList.IndicesWithFacts | script.js:349-356 | the positions of a category are exactly the items in it, ascending |
| ShoppingList.GroupHolds | script.js:349-356 | a group holds exactly the positions of its category, in list order |
| ShoppingList.EachItemInExactlyOneGroup | script.js:349-356 | every item is in exactly one group, the one of its category |
| ShoppingList.GroupsKeepListOrder | script.js:349-356 | within each group the items keep their list order |
| ShoppingList.GroupingSameCategories | script.js:196 | the grouping depends on the categories only, so quantity and completion changes keep it valid |
| ShoppingList.CountCompleted | script.js:550 | the number of completed items is at most the number of items |
| ShoppingList.RoundedPercentBounds | script.js:564 | the completion rate `Math.round(completed / total * 100)` lies between 0 and 100 |
| ShoppingList.CompareForDisplay | script.js:379-387 | of two items differing in completion, the incomplete one sorts first |
| ShoppingList.CompareForDisplayAntisymmetric | script.js:379-387 | with an antisymmetric `localeCompare`, the display comparator is antisymmetric |
| ShoppingList.ShoppingApp.constructor | script.js:3-9 | an empty list, no groups, not loading |
| ShoppingList.ShoppingApp.UpdateCategories | script.js:347-359 | the loop leaves `categories` equal to the grouping of the current items |
| ShoppingList.ShoppingApp.LoadItems | script.js:244-260 | the list becomes what the database holds, grouped, and loading ends |
| ShoppingList.ShoppingApp.RemoveItem | script.js:147-182 | returns whether an entry includes the name; the list loses that entry's id; the storage is `deleteItem` of that id, or untouched when no entry matches; groups stay valid |
| ShoppingList.ShoppingApp.ToggleItemCompletion | script.js:185-208 | returns whether the id is present; the list becomes the toggled list; the storage is `updateItem` of the flipped flag for a listed id and untouched otherwise; a synced list stays synced when the write succeeds |
| ShoppingList.ShoppingApp.UpdateItemQuantity | script.js:211-241 | the list becomes the quantity-updated list (a removal by name for 0 or less); the storage is `updateItem` of a positive quantity, or the removal's `deleteItem`; the result is false only for removal of an absent id |
| ShoppingList.ShoppingApp.AddItem | script.js:85-144 | the result is what `addItem` returns or throws; the list becomes the list after the add; a new name is stored in the database, a listed one gets the storage effect of `updateItemQuantity`; blank names and failed writes store nothing; groups stay valid |
| ShoppingList.ShoppingApp.ClearAllItems | script.js:291-317 | once confirmed, the list, the groups and the storage are emptied; otherwise nothing changes |
| ShoppingList.ShoppingApp.Reset | script.js:610-616 | the list and groups are emptied and loading cleared, without touching the database |
| ShoppingList.ShoppingApp.GetStatistics | script.js:549-566 | totals, completed and pending items add up; per-category counts equal an independent count and sum to the total; the rate is the rounded percentage, within 0..100 |
| ShoppingList.ShoppingApp.GetHealthStatus | script.js:619-653 | one issue per missing dependency, in order; healthy exactly when none is missing, unhealthy exactly when all three are, degraded otherwise |
| Suggestions.Lowered | ai-suggestions.js:114 | every current name lower-cased, in order |
| Suggestions.Described | ai-suggestions.js:158-163 | each name of a list becomes one suggestion with the given reason, type and priority |
| Suggestions.PicksFacts | ai-suggestions.js:140-148 | a key contributes exactly its complements not already listed, each "Goes well with" that key, priority 2 |
| Suggestions.MatchesForFacts | ai-suggestions.js:138-150 | a current name contributes what every key it includes contributes |
| Suggestions.CandidatesFacts | ai-suggestions.js:137-151 | the pushed candidates are exactly the contributions of the current names |
| Suggestions.CandidatesSound | ai-suggestions.js:137-151 | every candidate is an unlisted complement of a key some current name includes |
| Suggestions.CandidatesComplete | ai-suggestions.js:137-151 | every unlisted complement of a key some current name includes is a candidate |
| Suggestions.ComplementaryCharacterised | ai-suggestions.js:128-154 | at most three complementary suggestions, each an unlisted complement of an included key; when fewer than three, all of them |
| Suggestions.PushComplements | ai-suggestions.js:140-148 | the `forEach` loop appends exactly the key's unlisted complements |
| Suggestions.PushMatches | ai-suggestions.js:138-150 | the loop over the table's entries appends exactly the current name's contribution |
| Suggestions.GetComplementaryItems | ai-suggestions.js:128-154 | the nested loops compute the complementary suggestions |
| Suggestions.SeasonsAreThreeMonths | ai-suggestions.js:199-205 | each season is three consecutive months starting with spring in March, winter wrapping around the year |
| Suggestions.ItemsOf | ai-suggestions.js:158 | `table[key] \|\| []` is empty for a key the table does not hold |
| Suggestions.ItemsOfFirstHolder | ai-suggestions.js:158 | `table[key]` for a key the table holds is the item list of its first entry with that key |
| Suggestions.SeasonalAreFirstTwoOfSeason | ai-suggestions.js:156-164 | every season has a list of three, and the suggestions are its first two, tagged with the season |
| Suggestions.EligibleFacts | ai-suggestions.js:174 | the filter keeps exactly the entries counted at least twice and not listed, keeping keys distinct |
| Suggestions.InsertDescFacts | ai-suggestions.js:175 | inserting into a list sorted by count adds exactly that entry and keeps it sorted |
| Suggestions.InsertDescDistinct | ai-suggestions.js:175 | inserting a new key keeps keys distinct |
| Suggestions.SortDescFacts | ai-suggestions.js:175 | the sort by count, highest first, is a sorted permutation that keeps keys distinct |
| Suggestions.SortedEligibleFacts | ai-suggestions.js:166-175 | the sorted candidates are exactly the history names bought at least twice and not listed, each with its purchase count |
| Suggestions.FrequentFacts | ai-suggestions.js:166-183 | at most two frequent suggestions: unlisted names bought at least twice, reporting their counts, distinct, most frequent first |
| Suggestions.TopTwo | ai-suggestions.js:175-176 | in a list sorted by count, an entry outside the first two is counted no more than either of them |
| Suggestions.FrequentAreTheMostFrequent | ai-suggestions.js:166-183 | an eligible name not suggested leaves two suggestions, each bought at least as often as it |
| Suggestions.GetFrequentItems | ai-suggestions.js:166-183 | the counting loop and the filter, sort and slice compute the frequent suggestions |
| Suggestions.UnlistedFacts | ai-suggestions.js:188 | the filter keeps exactly the essentials not listed, all of them when none is |
| Suggestions.FirstTwoUnlisted | ai-suggestions.js:187-195 | of any fixed list, the suggestions are its first two unlisted entries, "Household essential", priority 4 |
| Suggestions.EssentialsFacts | ai-suggestions.js:185-196 | the household essentials are the first two unlisted ones of the fixed list, never a listed name |
| Suggestions.EssentialsWhenNoneListed | ai-suggestions.js:185-196 | with no essential listed, the suggestions are toilet paper, then paper towels |
| Suggestions.FirstWithName | ai-suggestions.js:122-124 | every suggestion has a first suggestion of its name, ignoring case |
| Suggestions.KeepFirstFacts | ai-suggestions.js:122-124 | deduplication keeps exactly the first suggestion of each name, ignoring case, so the kept names are distinct |
| Suggestions.KeepFirstCovers | ai-suggestions.js:122-124 | every name among the candidates survives deduplication |
| Suggestions.FirstPositionsAscend | ai-suggestions.js:122-124 | the positions of the first candidates of their names lie within the candidates, ascending |
| Suggestions.FirstPositionsExact | ai-suggestions.js:122-124 | those positions are exactly the candidates whose name did not occur earlier |
| Suggestions.KeepFirstInOrder | ai-suggestions.js:122-124 | the filter keeps candidate order: its `a`-th suggestion is the candidate at the `a`-th first-of-name position |
| Suggestions.TopSixFacts | ai-suggestions.js:121-125 | at most six rule-based suggestions with distinct names, each the first candidate of its name; fewer than six only when every candidate name is among them |
| Suggestions.TopSixInOrder | ai-suggestions.js:121-125 | the rule-based list is the first six first-of-name candidates in candidate order; when six are kept, no first-of-name candidate up to the sixth is left out |
| Suggestions.GetRuleBasedSuggestions | ai-suggestions.js:112-126 | pushes the four generators' lists in order, then deduplicates and keeps six |
| Suggestions.AiSuggestionsSound | ai-suggestions.js:66-71 | the model's list is no longer than the reply; every suggestion is named, has a reason and a priority, and is named after an element of the reply |
| Suggestions.AiSuggestionsComplete | ai-suggestions.js:66-71 | every named element of the reply becomes a suggestion, with 'AI recommendation' and priority 3 filling in missing ones |
| Suggestions.GenerateSuggestions | ai-suggestions.js:23-38 | with an API key and a non-empty model list, that list; otherwise the rule-based list |
| Voice.ProcessCommand | voice-handler.js:82-95 | add-to-cart exactly when the lower-cased transcript includes "add to cart"; checkout exactly when it includes "checkout" but not the former; otherwise unrecognized, echoing the lower-cased transcript |
| Voice.ProcessCommandIgnoresCase | voice-handler.js:83 | transcripts equal up to case are classified alike |
| Voice.BothPhrasesAddToCart | voice-handler.js:85-90 | a transcript holding both phrases is classified add-to-cart, since the first test wins |
| Voice.CheckoutWithoutAdd | voice-handler.js:88-90 | a transcript holding "checkout" and not "add to cart" is classified checkout |
| Voice.UnrecognizedIffNoPhrase | voice-handler.js:82-94 | a transcript is unrecognized exactly when neither phrase occurs at any position of its lower-cased form |
| Voice.VoiceHandler.constructor | voice-handler.js:3-11 | not listening, with an empty history |
| Voice.VoiceHandler.StartListening | voice-handler.js:68-72 | a start is issued exactly when recognition is supported and not listening |
| Voice.VoiceHandler.StopListening | voice-handler.js:75-79 | a stop is issued exactly when listening |
| Voice.VoiceHandler.OnStart | voice-handler.js:35-39 | the handler is listening afterwards; the history is unchanged |
| Voice.VoiceHandler.OnEnd | voice-handler.js:60-64 | the handler is not listening afterwards; the history is unchanged |
| Voice.VoiceHandler.OnResult | voice-handler.js:41-53 | exactly one entry is appended to the history, the listening flag is unchanged, and the transcript is classified |

## Left out

- The Firebase branch of every `ShoppingDatabase` method (firebase-config.js:1-45 and the `isFirebaseEnabled` arms): it is a remote service. Only the local-storage branch is modelled.
- The creation and update timestamps and the `Date.now()` id: the id is the parameter `newId`, timestamps are not modelled.
- JSON encoding of the stored list: `Stored` holds the decoded list, or `Unreadable` for text that does not parse.
- Rendering, notifications, the loading overlay, event listeners, `initializeApp` and `waitForDependencies` (script.js): DOM and timers. Only the `isLoading` flag that `showLoading` sets is kept.
- `saveList` and `exportStatistics`: file download and console output.
- `getItems` (script.js:263-265): it returns a copy of the list. The model's lists are values, so there is nothing to copy.
- `searchItems` (script.js:268-288): it calls `aiSuggestions.searchItems`, which `AISuggestions` does not define. Its fallback only reports a count.
- `handleError` (script.js:576-607): message selection for the user interface.
- `getAISuggestions`' request, `buildAIPrompt` and the regular expression and JSON parsing of `parseAISuggestions` (ai-suggestions.js:40-110): network and foreign parsing. The model takes the parsed reply as a list and keeps its filter and mapping.
- `setApiKey` and `loadApiKey`: storage of the API key. Only `hasApiKey` is kept.
- `loadCommonSubstitutes`, `loadFallbackSuggestions` and `loadUserPreferences` (ai-suggestions.js:216-238): two constant tables and a read of saved preferences from local storage, none of which the suggestion generators read.
- `addToHistory`: `AISuggestions` does not define it, so the call throws. That is the `historyFails` parameter.
- The Web Speech API object, its settings, `onerror`, `updateUI` and `showError` (voice-handler.js): a browser service and DOM writes. The recogniser's events are methods.
- The handler's `toggleVoiceRecognition`: script.js's listeners call it, but `VoiceHandler` does not define it.
- `window.firebaseStatus` (the source of `getHealthStatus`'s storage field): it is the optional parameter `storageType`.
- Concurrency between the `async` calls: each awaited call is one sequential step.
- Items given as strings rather than objects (`item.name || item`): items and history entries are represented by their names.
- Category and history names that every JavaScript object already has as inherited properties (`constructor`, `toString`, `valueOf`, `hasOwnProperty`, `__proto__`, …): the model's dictionaries start with no keys at all. In the source, `this.categories[c]` is then an inherited value, so `.push` throws (script.js:351-354): `addItem` throws after the new item is stored, `removeItem` returns false after the deletion is written, and `loadItems` falls back to an empty list. `byCategory[c] || 0` starts from the inherited value, so that count becomes a string, or is dropped for `__proto__` (script.js:555). In `getFrequentItems` such a name gets no numeric count and is never suggested (ai-suggestions.js:168-176).
- Key order of integer-like category or item names in a JavaScript object: those keys are enumerated first, in numeric order, and the model keeps insertion order for all keys.
- Lower-casing beyond ASCII, and the locale behind `localeCompare`: `localeCompare` is a parameter.
- Floating point: the completion rate uses exact rational rounding, and confidence is a real number.
- Suggestions.SortDescFacts: does not state that equal counts keep their original order, although `InsertDesc` is written to keep it.
