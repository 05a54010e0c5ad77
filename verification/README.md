# bored, modelled in Dafny

`bored` is a terminal client for Azure DevOps Boards. It has three parts, and this project models the core logic of each:

- **The Azure DevOps client** (`azdo/client.go`), modelled in `client.dfy`. This is what each call sends and how it reads the replies:
  - the JSON-patch op lists for creating, updating, linking and unlinking work items, and for the planning fields;
  - the paging of query results;
  - the batch `ids` parameter;
  - how a work item ID is extracted from a relation URL;
  - how relations are sorted into a parent and children;
  - the scan that finds the link to remove.

  HTTP is not modelled. A server reply is an input of the operation that receives it. The result is the list of requests sent together with what the call returns. Where Go would panic, the model says so (`Outcome.Panics`). The one exception is the ID extractor for relation URLs: the calls that use it take the corrected extractor described under Findings, which gives 0 for a URL under ten bytes where Go panics.
- **The pull-request synchroniser** (`sync_pr_to_ado.py`), modelled in two files:
  - `prsync.dfy` (module `PrSync`): the regular-expression extractors for `ADO Card:`, `ADO Tags:`, `ADO Children:` and `ADO Links:`, modelled character by character (including the case folding and the `\s` of Python's `re`);
  - `prsync_sync.dfy` (module `PrSyncPlan`): the update plans the script derives from them: description and tags, child tasks, hyperlinks, and the single marked comment.
- **The Bubble Tea UI** (`tui/*.go`), modelled in `tui_*.dfy`. The UI is a state machine.
  - `TuiUpdate.Step` is `Model.Update`, with the opening of an item corrected as described under Findings. It is a pure function from a state and a message to the next state and the commands issued. The code as written is modelled beside it (`TuiBoard.OpenDetailAsWritten`).
  - A command is a request to the client. Its outcome comes back later as a result message.
  - `TuiModel.Valid` holds in every state the corrected UI can reach: the forms have their fields, each shown screen has exactly one focused field, and the selections are in range. `Step` preserves it. The UI as written breaks the single-focus part of it (see Findings). `Step` also assumes `TuiModel.Deliverable`: a result arrives only after the command that produces it was issued, so a connection result finds a client, and a comment, link or related-item result finds a selected item. A successful create or update also carries its item. The code never resets the client or the selected item to nil, and the client returns an item with every success.
  - The settings file's load and save rules are in `tui_settings.dfy`.

`common.dfy` holds the library behaviour the three parts rely on, modelled to match Go and Python:
- `strings.TrimSpace` and `str.strip` (each with its own whitespace set);
- `strings.Split` and `str.split`;
- `strconv.Atoi` (with the 64-bit range);
- `fmt.Sscanf("%d")`, which reads decimal digits only, so an underscore ends the number;
- `%d` formatting;
- `strings.ReplaceAll`;
- leftmost-match search.

## Model

| member | source | states |
|---|---|---|
| Client.TeamUrl | azdo/client.go:167-172 | WIQL queries go to the project URL, extended by `/<team>` exactly when a team is configured |
| Client.PickValueAt | azdo/client.go:299-313 | an op list built by appending each operation only when its condition holds carries each candidate's value at its path exactly when the condition held |
| Client.PickAscending | azdo/client.go:299-313 | such an op list keeps the builder's field order |
| Client.PickReadBack | azdo/client.go:299-313 | read-back of a conditional op list: per-path values, field order, one op per enabled condition, all of one kind |
| Client.CreateOps | azdo/client.go:296-313 | a create always adds the title first. It adds the description, area path and assignee exactly when they are non-empty, and the priority exactly when it is positive, in that order |
| Client.CreateWithParentOps | azdo/client.go:349-377 | create-with-parent sends the plain create's ops followed by exactly one reverse-hierarchy link to the parent's URL |
| Client.AddChildLinkRequest | azdo/client.go:408-420 | linking a child patches the parent with one `add` of a forward-hierarchy relation to the child's URL |
| Client.RemoveRelationRequest | azdo/client.go:447-455 | removing a relation patches one `remove` of `/relations/<index>` on the item |
| Client.UpdateOps | azdo/client.go:598-611 | an update replaces title and state only when non-empty, and always replaces assignee and tags (an empty value clears them). This gives two to four `replace` ops, in order |
| Client.UpdateWorkItem | azdo/client.go:598-643 | the op list is never empty, so the "no updates specified" branch is unreachable: exactly one PATCH is sent and its reply is the result |
| Client.PlanningOps | azdo/client.go:820-841 | one `add` per supplied planning value, in the fixed order. The error "no planning updates specified" is returned exactly when none is supplied |
| Client.SendPatch | azdo/client.go:839-869 | an op-list error stops the call before any request; otherwise one PATCH is sent and its reply is returned |
| Client.UpdateWorkItemPlanning | azdo/client.go:820-869 | no request is sent exactly when no value is supplied, and then the call fails with that error |
| Client.DynamicOpsMembers | azdo/client.go:937-945 | the loop emits one `add` per enumerated key, at `/fields/<key>`, with that key's value |
| Client.PlanningOpsDynamic | azdo/client.go:934-949 | in whatever order the map is iterated: the result is an error exactly when the map is empty, and otherwise has one op per entry, each entry's op present and no other |
| Client.PlanningFieldsOfKeeps | azdo/client.go:909-928 | the planning-field filter keeps only table fields that are not read-only, each with the table's display name and no value |
| Client.GetPlanningFields | azdo/client.go:902-931 | the loop computes exactly that filter, in schema order |
| Client.PlanningFieldsAppend | azdo/client.go:917-928 | the filter preserves schema order: filtering a concatenation concatenates the filtered parts |
| Client.PlanningFieldsSingle | azdo/client.go:918-927 | a single field is kept exactly when it is in the table and not read-only, under the table's display name |
| Client.PageRefs | azdo/client.go:227-242 | the paging slice panics exactly when refs remain past `skip` and `top` is negative. Otherwise it returns `min(top, remaining)` refs starting at `max(skip, 0)` |
| Client.PageWindow | azdo/client.go:231-242 | for a non-negative page request the page is `refs[skip .. min(skip+top, n)]`, and it is empty once `skip` passes the end |
| Client.FormatIds | azdo/client.go:244-247 | the page becomes one decimal string per ID |
| Client.JoinIds | azdo/client.go:257-263 | the loop builds the comma-join of the IDs |
| Client.IdsParamRoundTrip | azdo/client.go:257-263 | splitting the `ids` parameter on commas gives back every ID's decimal form, in order |
| Client.GetWorkItemsByIds | azdo/client.go:252-290 | an empty ID list sends nothing and returns no items; otherwise one batch request is sent and its reply is returned |
| Client.GetWorkItemsPaged | azdo/client.go:183-250 | covers the WIQL query first, a query error, the panic of the paging slice, an empty page (no batch), and a batch of exactly the page's IDs |
| Client.ExtractIdShortUrls | azdo/client_test.go:2072-2087 | the extractor as written panics on `""` and `"abc"`, which the repository's tests expect to yield 0; the clamped extractor yields 0 |
| Client.ExtractIdAgrees | azdo/client.go:724-739 | on every URL the original accepts, the clamped extractor returns the same ID |
| Client.ExtractIdRoundTrip | azdo/client.go:722-739 | any prefix, then `workItems/`, then the decimal form of an ID of one to ten digits, extracts to that ID |
| Client.ExtractIdUnderscore | azdo/client.go:724-739 | a last segment `12_4` after `workItems/` extracts to 12: the ten-byte window starts at a letter and scans nothing, and the scan after the last slash stops at the underscore |
| Client.ExtractIdNoDigits | azdo/client.go:731-738 | a last path segment of nine or more characters without a digit extracts to 0 |
| Client.ClassifyRelations | azdo/client.go:682-699 | the parent is the ID of the last reverse-hierarchy relation (0 without one). The children are the positive IDs of forward-hierarchy relations, in relation order |
| Client.ParentIdOfLast | azdo/client.go:688-692 | the parent ID is 0 without a reverse relation and otherwise comes from the last such relation |
| Client.ChildIdsOfSource | azdo/client.go:693-697 | every child ID is positive and is named by some forward relation |
| Client.ChildIdsSnoc | azdo/client.go:688-699 | appending a relation extends the children or replaces the parent as the loop does |
| Client.GetRelatedWorkItems | azdo/client.go:675-720 | the item is fetched first. The parent is fetched only for a positive parent ID and the children only when there are some. A failed parent or children fetch yields none, and the call still succeeds |
| Client.FirstLinkMatch | azdo/client.go:490-501 | the first relation of the type whose URL contains `workItems/<target>`; none exactly when no relation matches |
| Client.FindLink | azdo/client.go:496-501 | the loop returns that first match |
| Client.RemoveHierarchyLink | azdo/client.go:483-504 | the item is fetched. The first matching relation is removed by position, and "relation not found" is returned without a match |
| Client.ChildLinkFound | azdo/client.go:408-420 | a link stored by `AddChildLink` is the one unlinking that child finds, when no earlier relation matches |
| Client.LinksReadBack | azdo/client.go:369-377 | a parent link written at creation is read back as the parent, and a child link as a child |
| Client.PrefixIdMatchesLongerId | azdo/client.go:498 | as written, unlinking child 12 from children [123, 12] removes the relation of child 123 |
| Client.FirstExactLink | azdo/client.go:496-501 | corrected scan: the first relation of the type whose URL names exactly the target |
| Client.ExactUnlinkMatchesChildren | azdo/client.go:688-699 | with the exact rule, unlinking a child finds a relation exactly when the relations list that child, and it is that child's relation |
| Client.ChildIdsMembers | azdo/client.go:693-697 | a positive ID is a child exactly when some forward relation names it |
| PrSync.DirectiveAt | sync_pr_to_ado.py:262 | `ADO <Word>:` written with single blanks matches the case-insensitive directive prefix, which ends after the colon |
| PrSync.ValueStartSpec | sync_pr_to_ado.py:275 | the backtracking `\s*` before a value. The value starts after blanks only, at the last point where a non-newline follows, and no value exists exactly when only newlines remain |
| PrSync.ExtractCardAt | sync_pr_to_ado.py:262-267 | the leftmost card match decides the card number |
| PrSync.CardRoundTrip | sync_pr_to_ado.py:257-267 | a description writing `ADO Card: <n>` yields n, whatever follows the digits, when nothing earlier starts a directive |
| PrSync.CardAbsent | sync_pr_to_ado.py:262-267 | a description with no character folding to `a` has no card |
| PrSync.CleanPieces | sync_pr_to_ado.py:280 | cleaning yields stripped, non-empty pieces, no more than it was given, and introduces no character |
| PrSync.CleanPiecesIdempotent | sync_pr_to_ado.py:280 | cleaning twice is cleaning once |
| PrSync.SpacedJoinRoundTrip | sync_pr_to_ado.py:280 | clean pieces joined with `<sep> ` are recovered by splitting on `<sep>` and cleaning |
| PrSync.TagsLineAt | sync_pr_to_ado.py:275 | a tags match captures a non-empty part of one line |
| PrSync.ExtractTags | sync_pr_to_ado.py:270-281 | the tags are the cleaned comma-separated pieces of the leftmost tags line, or none without one; no tag holds a comma or a newline |
| PrSync.TagsRoundTrip | sync_pr_to_ado.py:270-281 | tags written on an `ADO Tags:` line, separated by comma and blank, are read back unchanged |
| PrSync.TagsLineOf | sync_pr_to_ado.py:275-279 | the tags line written after a directive-free prefix is the one captured |
| PrSync.ItemAt | sync_pr_to_ado.py:292 | one list item spans at least one character and captures a non-empty text without a newline |
| PrSync.ItemsOfBullets | sync_pr_to_ado.py:292-297 | every line of a bulleted list is read back as an item, in order, when what follows cannot continue the list |
| PrSync.ListOfHead | sync_pr_to_ado.py:292-297 | the items under an `ADO <Word>:` line are the leftmost list when nothing before it starts a directive |
| PrSync.ExtractChildren | sync_pr_to_ado.py:284-299 | the child titles are the cleaned items of the leftmost `ADO Children:` list |
| PrSync.ChildrenRoundTrip | sync_pr_to_ado.py:284-299 | titles written as an `ADO Children:` list are read back unchanged |
| PrSync.LinkOfItem | sync_pr_to_ado.py:335-350 | an extracted link has a non-empty stripped URL without a bar and a stripped name |
| PrSync.LinkOfPlainItem | sync_pr_to_ado.py:336-347 | an item without a bar names its link by its URL; a blank item gives no link |
| PrSync.LinkOfLinkLine | sync_pr_to_ado.py:341-344 | a `url \| name` item with clean parts gives that link back |
| PrSync.LinksOf | sync_pr_to_ado.py:335-352 | at most one link per item, each well formed |
| PrSync.LinksOfLines | sync_pr_to_ado.py:335-352 | reading the template lines of links gives those links back |
| PrSync.ExtractLinks | sync_pr_to_ado.py:316-352 | the links are those of the items of the leftmost `ADO Links:` list |
| PrSync.LinksRoundTrip | sync_pr_to_ado.py:316-352 | links written as an `ADO Links:` list of `url \| name` lines are read back unchanged |
| PrSyncPlan.SyncTarget | sync_pr_to_ado.py:640-650 | the run proceeds only with a positive card number read from a non-empty description |
| PrSyncPlan.DescriptionPatch | sync_pr_to_ado.py:378-396 | the description is always replaced with the given text. The tags field is then removed when there are no tags, and otherwise replaced with the tags joined by `; ` |
| PrSyncPlan.DescriptionPatchTags | sync_pr_to_ado.py:386-391 | the tags value written reads back as the extracted tags when none contains a semicolon |
| PrSyncPlan.ChildOps | sync_pr_to_ado.py:475-499 | a child task is created with the title and a reverse link to the parent. It inherits the parent's area and iteration paths exactly when they are non-empty, in that order after the title and link, and the op list holds nothing else |
| PrSyncPlan.TitlesToCreate | sync_pr_to_ado.py:469-472 | a title is created as often as it is listed, unless its lower-case form is an existing child's |
| PrSyncPlan.TitlesToCreateAppend | sync_pr_to_ado.py:469-472 | the titles to create keep the listed order: the selection over two lists joined is the two selections joined |
| PrSyncPlan.SyncChildItems | sync_pr_to_ado.py:446-505 | nothing for an empty list or an unreadable parent; otherwise one Task creation per title to create, in order |
| PrSyncPlan.ChildSyncIdempotent | sync_pr_to_ado.py:438-472 | a second run after every creation succeeded creates nothing |
| PrSyncPlan.ExistingHyperlinks | sync_pr_to_ado.py:539-552 | the existing links are the URLs of `Hyperlink` relations, and none when the item is unreadable |
| PrSyncPlan.LinksToAdd | sync_pr_to_ado.py:568-571 | a link is added as often as it is listed, unless its URL already exists |
| PrSyncPlan.LinksToAddAppend | sync_pr_to_ado.py:568-571 | the links to add keep the listed order: the selection over two lists joined is the two selections joined |
| PrSyncPlan.SyncHyperlinks | sync_pr_to_ado.py:555-588 | nothing for an empty list; otherwise one single-op relation patch per link to add, in order |
| PrSyncPlan.HyperlinkSyncIdempotent | sync_pr_to_ado.py:545-571 | a second run after every link was added adds nothing |
| PrSyncPlan.OtherRelationsIgnored | sync_pr_to_ado.py:548-550 | a relation of another type with the same URL does not count as an existing link |
| PrSyncPlan.SyncComment | sync_pr_to_ado.py:512-536 | empty text does nothing. Otherwise the first marked comment is rewritten with the marked body, or a new comment is posted exactly when none is marked |
| PrSyncPlan.CommentPostThenEdit | sync_pr_to_ado.py:521-534 | after a post, the next run edits that comment instead of posting again |
| PrSyncPlan.CommentEditIsStable | sync_pr_to_ado.py:526-531 | after an edit, the next run makes the same edit |
| Settings.LoadConfigFile | tui/configfile.go:89-110 | an unreadable file gives the defaults (with the error when it is not just missing). Otherwise the file's values, absent ones false, and a zero or absent maximum becomes fifty, so the maximum is never zero |
| Settings.SaveLoadRoundTrip | tui/configfile.go:89-133 | settings written and read back are the same, except that a zero maximum comes back as fifty |
| Settings.LoadIdempotent | tui/configfile.go:104-107 | writing the loaded settings and loading again gives the same settings |
| Settings.OlderFileDisablesNotifications | tui/configfile.go:28-34 | notifications default to on, yet a file written before that key existed loads with them off |
| Settings.MaxItemsFromInput | tui/configfile.go:217-222 | the maximum becomes the trimmed input's value exactly when that parses as a positive number, and otherwise is kept |
| Settings.TypedMaximumIsStored | tui/configfile.go:217-222 | a positive number typed with blanks around it is stored |
| Settings.UneditedMaximumKept | tui/configfile.go:217-222 | saving the maximum as displayed (`%d`) keeps it |
| TuiModel.EditInput | tui/detail.go:85-91 | an unfocused field ignores keys. A focused field keeps its focus, appends a one-character key and drops its last character on backspace |
| TuiModel.TypeThenErase | tui/detail.go:85-91 | typing a character and then backspace restores the field |
| TuiModel.TypeInto | tui/detail.go:85-91 | every field of a form receives the key |
| TuiModel.TypeIntoKeepsFocus | tui/detail.go:85-91 | only the focused field reacts; the focus stays where it was |
| TuiModel.FocusOnly | tui/detail.go:73-83 | after a focus change exactly the chosen field is focused and every text is kept |
| TuiModel.CycleInverse | tui/detail.go:16-30 | tab and shift+tab stay in range and undo each other |
| TuiModel.InitialCredentials | tui/model.go:222-231 | the credential fields start filled from the keychain when it held credentials, empty otherwise, with the first focused |
| TuiModel.NewModel | tui/model.go:111-235 | the UI starts on the credentials screen without a client, with the loaded settings, its show-all default, the maximum shown as `%d`, and the built-in types |
| TuiModel.NewModelUserName | tui/model.go:222-231 | the user name in the last credential field is the one the state starts with |
| TuiModel.FetchItemsCmd | tui/model.go:426-435 | fetching asks for up to fifty items of every type, restricted to the user exactly when show-all is off and a user name is set |
| TuiModel.Priority | tui/model.go:455-460 | the priority is 1 to 4: the field's first character when that is a digit 1 to 4, otherwise 2 |
| TuiModel.CreateCmd | tui/model.go:451-467 | a create sends the selected type and the four fields, the priority parsed as above |
| TuiModel.RunCreateRelated | tui/model.go:531-550 | a related child is created with a parent link in one request. A related parent is created and then, only if that succeeded, linked above the current item, and the first failure is reported |
| TuiModel.CreateRelatedLinksCurrent | tui/model.go:536-546 | whichever way round, the last request carries a hierarchy link to the current item in the right direction |
| TuiBoard.PageSize | tui/board.go:52-57 | a page holds the height less twelve rows, or ten when that is under five |
| TuiBoard.PageCount | tui/board.go:58-61 | the page count is at least one and just covers the items |
| TuiBoard.PageWindow | tui/board.go:226-242 | the drawn rows start at a page boundary, hold at most a page, reach the end or a full page, and contain the cursor when it is on the list |
| TuiBoard.PrevPageStart | tui/board.go:73-77 | previous-page moves to the first row of the page before |
| TuiBoard.NextPageStart | tui/board.go:78-85 | next-page moves to the first row of the page after, which is on the list |
| TuiBoard.MoveCursor | tui/board.go:64-91 | a navigation key moves the cursor by one row, a page, or to either end, and never off a non-empty list |
| TuiBoard.EditConfirmation | tui/board.go:36-48 | in the delete dialog, backspace drops a character and any other key at most appends one |
| TuiBoard.DeleteDialogKey | tui/board.go:18-50 | in the delete dialog the delete is sent exactly on enter with an exact copy of the title. A mismatch closes the dialog with an error, esc closes it, and other keys only edit the text |
| TuiBoard.TypingAppends | tui/board.go:41-48 | typing an ASCII text key by key appends it |
| TuiBoard.TypedTitleDeletes | tui/board.go:24-30 | typing the title into the fresh dialog and pressing enter deletes the item |
| TuiBoard.ConfirmationTypeThenErase | tui/board.go:36-48 | a character typed and erased leaves the dialog text unchanged |
| TuiBoard.StartDelete | tui/board.go:155-165 | `d` opens the dialog for the item under the cursor exactly when there is one, empty and without an error |
| TuiBoard.OpenDetailAsWritten | tui/board.go:111-141 | as written, opening an item focuses the title without blurring the other fields |
| TuiBoard.OpenDetail | tui/board.go:111-141 | corrected: opening an item shows its fields with only the title focused, clears comments and related items, and fetches both |
| TuiBoard.OpenCreate | tui/board.go:143-154 | `c` opens the create screen on the title, with the assignee prefilled with the user name |
| TuiBoard.ToggleFilter | tui/board.go:96-101 | `a` flips show-all, returns to the top and fetches with the new filter |
| TuiBoard.BoardKey | tui/board.go:14-171 | board keys keep the loaded items, and while the dialog is open every key goes to it |
| TuiBoard.BoardKeyNavigation | tui/board.go:64-91 | with no dialog open, a navigation key moves the cursor and changes nothing else, and a key the list does not handle changes nothing |
| TuiBoard.BoardKeyTable | tui/board.go:92-167 | with no dialog open, `r` refetches with the loading flag set and the error cleared, `a` toggles the filter, `o` and `q` leave the state as it is (`q` quits), `e` and `enter` open the item under the cursor, `c` and `n` open the creation form, and `d` asks to delete |
| TuiBoard.FilterToggleTwice | tui/board.go:96-101 | pressing `a` twice restores the filter and fetches with it |
| TuiDetail.DetailFocus | tui/detail.go:16-30 | tab and shift+tab cycle the five fields, but not while the comments are expanded |
| TuiDetail.Scroll | tui/detail.go:51-62 | j and k scroll by one within the list, only while expanded |
| TuiDetail.DetailActionOf | tui/detail.go:15-63 | which case of the detail handler each key falls into |
| TuiDetail.SaveDetail | tui/detail.go:31-38 | ctrl+s sends the four fields as the item's new title, state, assignee and tags |
| TuiDetail.SubmitComment | tui/detail.go:39-45 | enter adds a comment exactly when the comment field is focused and non-empty |
| TuiDetail.EditDetail | tui/detail.go:66-70 | other keys edit only the focused field, unless the comments are expanded |
| TuiDetail.DetailKey | tui/detail.go:12-71 | a request is sent exactly on ctrl+s, or on enter with a comment. The comment keys never reach the fields, and the selected item is kept |
| TuiDetail.CommentWindow | tui/detail.go:182-188 | the expanded list shows up to five comments from the scroll position, never past the end |
| TuiDetail.ScrollKeepsCommentsVisible | tui/detail.go:51-62 | scrolling never leaves the expanded list of a non-empty comment list empty |
| TuiDetail.ScrollIndicator | tui/detail.go:190-195 | the "Showing a-b of n" line appears exactly when there are more than five comments |
| TuiDetail.StripMarkup | tui/detail.go:205-208 | removing markup never lengthens a comment and leaves one without markup alone |
| TuiDetail.Truncate | tui/detail.go:209-211 | a comment over 200 characters becomes its first 197 and `...`; shorter ones are kept |
| TuiDetail.TruncateIdempotent | tui/detail.go:209-211 | truncating twice is truncating once |
| TuiDetail.CommentText | tui/detail.go:204-211 | the shown text is at most 200 characters and no longer than the comment |
| TuiCreate.CreateFocus | tui/create.go:15-23 | tab and shift+tab cycle the four fields and the type selector, keeping the texts |
| TuiCreate.SelectType | tui/create.go:24-34 | left and right on the selector pick the previous or next type, wrapping. Nothing else changes the type |
| TuiCreate.EditCreate | tui/create.go:24-44 | a key that is not tab, shift+tab or enter goes to every field, so only the focused text field changes. Left and right on the selector also change the type |
| TuiCreate.CreateKey | tui/create.go:11-45 | the item is created exactly on enter with a title. The type changes only by left or right on the selector |
| TuiCreate.RightCycles | tui/create.go:31-34 | k presses of right move the selection k types on, modulo the number of types |
| TuiCreate.RightAroundReturns | tui/create.go:31-34 | one press of right per type returns to the type selected before |
| TuiCreate.SelectKeepsForm | tui/create.go:24-34 | repeated left and right presses change nothing but the type |
| TuiConfig.ClientOf | tui/config.go:28-35 | the client is built from organization, project, team, area path and token |
| TuiConfig.ConfigFocus | tui/config.go:17-25 | tab and shift+tab cycle the six fields, keeping the texts |
| TuiConfig.SubmitCredentials | tui/config.go:26-46 | with all six fields filled, enter builds the client, takes the user name and tests the connection. The message says whether the keychain accepted the credentials |
| TuiConfig.ClearCredentials | tui/config.go:48-59 | ctrl+d empties all six fields and forgets the keychain |
| TuiConfig.OpenSettings | tui/config.go:60-65 | ctrl+f opens the settings screen on its first option |
| TuiConfig.EditConfig | tui/config.go:69-70 | other keys go to the focused field |
| TuiConfig.ConfigKey | tui/config.go:13-71 | the connection test is sent exactly on enter with every field filled, and no other key changes the client |
| TuiConfig.KeychainOnlyAffectsMessage | tui/config.go:39-46 | the keychain's outcome changes only the message shown |
| TuiConfigFile.SettingsFocus | tui/configfile.go:164-172 | tab and shift+tab cycle the three options; the maximum's field is focused exactly when current |
| TuiConfigFile.ToggleOption | tui/configfile.go:173-182 | enter or space flips the show-all or notification option under the focus |
| TuiConfigFile.SaveSettings | tui/configfile.go:215-234 | saving takes a typed positive maximum. On success it applies the show-all default at once; on failure it shows the error and keeps the filter |
| TuiConfigFile.EditSettings | tui/configfile.go:189-195 | other keys edit the maximum only when it is current |
| TuiConfigFile.SettingsKey | tui/configfile.go:155-196 | esc returns to the credentials screen. The board filter changes only by a successful save, and the settings only by toggling or saving |
| TuiConfigFile.SaveKeepsUneditedMaximum | tui/configfile.go:217-222 | saving without editing the maximum keeps the settings |
| TuiConfigFile.SavedSettingsReadBack | tui/configfile.go:215-234 | what a successful save writes loads back unchanged |
| TuiUpdate.BackToBoard | tui/model.go:271-277 | esc returns from create or detail to the board, clearing the error and message |
| TuiUpdate.KeyStep | tui/model.go:267-278 | a key keeps the state reachable |
| TuiUpdate.OnConnected | tui/model.go:280-288 | a good connection goes to the board and fetches items and types; a failed one shows the error |
| TuiUpdate.OnTypesLoaded | tui/model.go:290-295 | a non-empty type list replaces the types and resets the selection; otherwise nothing changes |
| TuiUpdate.OnItemsLoaded | tui/model.go:297-306 | fetched items replace the board's on success. An error keeps the old items, and the cursor is kept either way |
| TuiUpdate.OnCreated | tui/model.go:308-319 | a created item returns to the board with a message, empties the create fields and refetches |
| TuiUpdate.OnCommentsLoaded | tui/model.go:321-326 | comments replace the old ones on success; an error is dropped |
| TuiUpdate.OnCommentAdded | tui/model.go:328-336 | an added comment empties the comment field and refetches the comments |
| TuiUpdate.OnItemUpdated | tui/model.go:338-346 | an updated item becomes the selected item |
| TuiUpdate.OnRelatedLoaded | tui/model.go:348-353 | parent and children replace the old ones on success; an error is dropped |
| TuiUpdate.OnRelatedCreated | tui/model.go:355-368 | create-related mode ends either way. On success a message names the new item and the related items are refetched |
| TuiUpdate.OnLinkRemoved | tui/model.go:370-379 | a removed link resets the related cursor and refetches |
| TuiUpdate.OnItemDeleted | tui/model.go:381-391 | the dialog closes either way. On success the cursor returns to the top and the items are refetched |
| TuiUpdate.Resize | tui/model.go:262-265 | a resize records the size only |
| TuiUpdate.Step | tui/model.go:260-408 | every message leads from a reachable state to a reachable state |
| TuiProps.CtrlCQuits | tui/model.go:269-270 | ctrl+c quits from any screen and changes nothing |
| TuiProps.EscapeReturnsToBoard | tui/model.go:271-277 | esc on create or detail returns to the board, keeping every edit |
| TuiProps.FailedResultIssuesNothing | tui/model.go:280-391 | a failed command issues nothing and keeps the screen, items and selection. The foreground results show the error |
| TuiProps.OnlyConnectAndCreateMove | tui/model.go:280-391 | only a successful connection and a successful create change the screen, both to the board |
| TuiProps.ResultsClearLoading | tui/model.go:280-391 | every result clears the loading flag except types and related items, which leave it alone |
| TuiProps.BackgroundErrorsAreSilent | tui/model.go:290-353 | failed background loads change nothing (comments: only the loading flag) |
| TuiProps.ItemsReplacedOnSuccess | tui/model.go:297-306 | loaded items replace the board's exactly when the fetch succeeded |
| TuiProps.StaleCursorOpensNothing | tui/board.go:111-142 | with the cursor past a shortened list, enter and `e` do nothing |
| TuiProps.StaleCursorDeletesNothing | tui/board.go:155-165 | with the cursor past a shortened list, `d` does nothing |
| TuiProps.DialogKeyAppends | tui/board.go:41-48 | a one-byte key in the open dialog is appended and sends nothing |
| TuiProps.NewItemAssignedToUser | tui/board.go:143-154 | `c` then enter creates the item with the selected type, assigned to the user |
| TuiProps.DetailCharTypes | tui/detail.go:66-70 | a plain character on the detail screen goes to the fields |
| TuiProps.OpenedItemTypesIntoTitle | tui/board.go:111-141 | with the corrected opening, typing after opening an item edits only its title |
| TuiProps.AsWrittenOpenTypesIntoTwoFields | tui/board.go:111-141 | as written, after leaving the detail screen from the assignee field, opening an item and typing edits both title and assignee |

## Left out

- HTTP transport, authentication headers, status-code handling and JSON decoding are not modelled. Each server reply is an input, and an error reply is an `Err`.
- `url.PathEscape` and `url.QueryEscape` are not modelled. The batch request carries the unescaped `ids` parameter.
- `GetWorkItems` and `GetWorkItemsFiltered` are not modelled separately. They are fixed-argument calls of `GetWorkItemsPaged`.
- `GetWorkItemTypes`, `GetComments`, `AddComment`, `DeleteWorkItem`, `TestConnection`, `GetIterations`, `GetWorkItemWithRelations`, `GetWorkItemTypeFields`, `GetRecentlyChangedWorkItems` and `UpdateWorkItemIteration` are not modelled. Each is one request whose reply is returned, with no logic of its own beyond the URL.
- `extract_comment` and the script's `main` orchestration are not modelled; only the card check of `main` is kept (`PrSyncPlan.SyncTarget`).
- Python `re`'s `\d` also matches non-ASCII digits. The model's digits are ASCII.
- `str.lower` is modelled for ASCII only.
- Planning values (`float64`) are carried as opaque bit patterns.
- The keychain, the TOML encoder and decoder, and locating the settings file are not modelled. A read's outcome is an input, and a write is represented by the configuration it stores.
- `openBrowser` is not modelled (the `o` key).
- Rendering is not modelled, except the board's page window and the comment list's window, indicator and text.
- Bubble Tea's text input is reduced to appending one-character keys and backspace at the end of the text. Cursor movement, word deletion, multi-rune pastes, the character limit and cursor blinking are not modelled.
- The related-items, create-related and iteration panels of the detail screen are not modelled, because no key in the modelled handlers opens them. Their results (`OnRelatedCreated`, `OnLinkRemoved`) are modelled.
- Go's command closures capture a copy of the state when they are created. The model records the request each command makes at that moment.
- Go measures string lengths in bytes, and the model in characters. The two agree for ASCII, which the byte-sensitive lemmas (`TuiProps.DialogKeyAppends`, `TuiBoard.TypingAppends`) require.
- `AppConfig.MaxWorkItems` is stored and edited but the fetch always asks for fifty items, as the code does.
- A sequence of several board keys through `Step` (typing a whole title into the dialog) is not stated as one lemma. The dialog is covered key by key (`TuiProps.DialogKeyAppends`) and as a whole at the dialog level (`TuiBoard.TypedTitleDeletes`).
- Client.GetRelatedWorkItems: uses the corrected ID extractor. Where a hierarchy relation's URL is under ten bytes, Go panics at azdo/client.go:727, while the model takes the ID as 0. The as-written extractor is `Client.ExtractIdAsWritten`.
- Client.ClassifyRelations: uses the corrected ID extractor as well, so a short relation URL gives ID 0 instead of a panic.
- TuiBoard.BoardKey / TuiUpdate.Step: opening an item (tui/board.go:111-141) is the corrected `OpenDetail`, which blurs the other fields. `TuiModel.Valid` is the corrected program's invariant. The opening as written is `TuiBoard.OpenDetailAsWritten`, and `TuiProps.AsWrittenOpenTypesIntoTwoFields` shows how it breaks single focus.
- Client.GetWorkItemsPaged: the WIQL text is carried as built, without SQL quoting, as the code does.

## Findings

| source | as written | input that shows it | evidently intended | confidence | as-written member | corrected member |
|---|---|---|---|---|---|---|
| azdo/client.go:724-739 | `urlStr[len(urlStr)-10:]` slices before checking the length | `""` or `"abc"`: the slice bound is negative and Go panics, while the repository's tests expect 0 | clamp the window to the start of the string, so short URLs yield 0 | not executed | Client.ExtractIdShortUrls | Client.ExtractIdAgrees |
| azdo/client.go:490-501 | a relation matches when its URL merely contains `workItems/<id>` | children 123 and 12, in that order: unlinking child 12 removes the link to 123 | match the relation whose URL names exactly the target ID | not executed | Client.PrefixIdMatchesLongerId | Client.ExactUnlinkMatchesChildren |
| tui/board.go:111-141 | opening an item focuses the title field but never blurs the others | on the detail screen tab twice to the assignee, esc, enter on an item, type `x`: both title and assignee get `x` | blur every other field, as opening the create screen does (lines 143-149) | not executed | TuiProps.AsWrittenOpenTypesIntoTwoFields | TuiProps.OpenedItemTypesIntoTitle |

Apart from the corrections in the rows above, which the rest of the model uses, the model follows the code where the code and its description disagree. The comment text of the detail screen is cut to 197 characters followed by `...` (200 in all), not to 200 characters followed by an ellipsis.
