# EasyGallery core, modelled in Dafny

EasyGallery is a desktop photo gallery. It has a Go backend (indexer, tag service and a local-file HTTP middleware) and a React frontend (search bar, image viewer, tag manager). This project models the core rules of both halves and proves properties about them:

- **Tag store and advanced search** (`tag_service.dfy`).
  - The three SQLite tables are an abstract store: picture paths, tag name to (type, colour), and (picture, tag) association pairs.
  - The CRUD operations are validated transitions of that store. The class `TagStore` performs them in place.
  - The advanced search is modelled twice. `SearchResult` is the boolean formula the generated SQL is meant to select: four groups; empty groups are dropped; a group matches any-of for an "or" operator or a single tag and all-of otherwise; the groups are intersected. `TagStore.SearchPicturesAdvanced` computes it.
  - `SearchAsWritten` follows the SQL text the service actually builds. With two or more non-empty groups that text is a parenthesised INTERSECT, which SQLite rejects, so the search fails (see "## Findings").
- **Search bar** (`search_bar.dfy`).
  - The four-group criteria record with its tag and operator toggles and the clear action.
  - The choice between searching and clearing after a change, and the payload sent to the backend.
  - The bucketing of loaded tags by type.
- **Image viewer** (`image_viewer.dfy`).
  - A cursor with wrap-around and its re-indexing after a delete.
  - The key dispatch, gated while the delete dialog is open.
  - The busy flags that make re-entrant actions no-ops, the available-tags filter and the file-size unit.
- **Tag manager** (`tag_manager.dfy`): the create/edit form, validation before any backend call, and the type label and icon lookups.
- **Indexer** (`indexer.dfy`).
  - The extension filter and the two passes of a folder index: collect the image files, then index and count them.
  - The rule that skips an unchanged picture, and the thumbnail name.
- **Paths** (`image_url.dfy`, `local_file.dfy`).
  - The frontend's local-file URL encoder.
  - The middleware's prefix removal and `%20`/`%5C` decoding, including the round trip between them.

`text.dfy` holds the string helpers both sides use (TrimSpace, ASCII case mapping, TrimPrefix, ReplaceAll, Join). `models.dfy` holds the record types.

Backend calls, file-system answers, clocks and the user's confirmation are parameters. The frontend components return the requests they issue as a list of effects. Each React handler is treated as one atomic step.

## Model

| member | source | states |
|---|---|---|
| Text.TrimSpace | backend/services/tag_service.go:26 | the result has no leading or trailing white space; it is empty exactly when the input is all white space; the input is a run of white space, then the result, then a run of white space |
| Text.TrimSpaceIdempotent | frontend/src/components/TagManager.tsx:59-66 | trimming an already trimmed name changes nothing, so for ASCII white space the backend's second trim keeps the name the form sent |
| Text.ToUpper | backend/services/tag_service.go:284 | the same length, each character upper-cased (ASCII letters only) |
| Text.ToLower | backend/services/indexer.go:36 | the same length, each character lower-cased (ASCII letters only) |
| Text.TrimPrefix | main.go:24 | for a string that starts with the prefix, the prefix followed by the result is the string; any other string is unchanged |
| Text.ReplaceAll | main.go:27-28 | no contract of its own; ReplaceAllAbsent states that a string without the pattern is unchanged, and ReplaceAllLeavesNoPattern that a one-character replacement outside the pattern leaves no occurrence |
| Text.Join | backend/services/tag_service.go:304 | a single part is returned as it is; with more parts the result starts with the first part and the separator |
| TagService.IsValidType | backend/services/tag_service.go:32-40 | no contract of its own: membership in the four tag types; CreateTagStep states that any other type is refused and UpdateTagSkipsTypeCheck that UpdateTag does not test it |
| TagService.CreateTagStep | backend/services/tag_service.go:20-58 | the error cases in source order: empty trimmed name, type outside the four, trimmed name already taken; an error leaves the store unchanged; on success exactly the trimmed name is added, with the given type and colour, and nothing else changes; referential integrity is preserved |
| TagService.UpdateTagStep | backend/services/tag_service.go:106-124 | a missing name is an error that changes nothing; otherwise only that tag's type and colour change; the type is not validated; integrity is preserved |
| TagService.DeleteTagStep | backend/services/tag_service.go:127-147 | every association of the name is removed whatever the outcome; the tag row is removed; "not found" is reported exactly when no row existed; integrity is preserved |
| TagService.AddTagToPictureStep | backend/services/tag_service.go:150-184 | "picture not found", then "tag not found", each leaving the store unchanged; on success the pair is in the association set and no other pair changes |
| TagService.RemoveTagFromPictureStep | backend/services/tag_service.go:187-198 | always succeeds; only that one pair is removed; integrity is preserved |
| TagService.CreateTagTwice | backend/services/tag_service.go:43-46 | repeating a successful create is refused as a duplicate and leaves the store unchanged |
| TagService.CreateTagPaddedDuplicate | backend/services/tag_service.go:26-46 | a taken name padded with white space is still refused as a duplicate |
| TagService.AddTagToPictureIdempotent | backend/services/tag_service.go:167-171 | adding a pair twice gives the same status and store as adding it once |
| TagService.RemoveTagFromPictureIdempotent | backend/services/tag_service.go:187-198 | removing a pair twice is removing it once |
| TagService.DeleteTagLeavesNoAssociation | backend/services/tag_service.go:133-135 | after DeleteTag no association carries the name, whatever the status |
| TagService.UpdateTagSkipsTypeCheck | backend/services/tag_service.go:111-121 | UpdateTag accepts a type that CreateTag would refuse |
| TagService.IsOrOperator | backend/services/tag_service.go:284 | no contract of its own; OrOperatorSpellings states that it holds exactly for the four letter-case spellings of "or" |
| TagService.OrOperatorSpellings | backend/services/tag_service.go:284 | the any-of branch is taken exactly for the four letter-case spellings of "or"; every other string means all-of |
| TagService.ElementsCard | backend/services/tag_service.go:289-293 | a list has at most as many distinct names as entries, and exactly as many iff it has no repeats; this is why the COUNT(DISTINCT) test means "all present" |
| TagService.AnyOfGroup | backend/services/tag_service.go:284-288 | an "or" group or a single-tag group matches iff the picture carries at least one of its names |
| TagService.SingleTagIgnoresOperator | backend/services/tag_service.go:284 | a single-tag group matches the same way under any operator: exactly when the picture carries that tag |
| TagService.AllOfGroup | backend/services/tag_service.go:289-293 | any other group over distinct names matches iff the picture carries every one of them |
| TagService.AllOfGroupWithDuplicates | backend/services/tag_service.go:289-293 | an all-of group with a repeated name matches no picture, since the distinct count never reaches len(tags) |
| TagService.EmptyCriteriaReturnsAll | backend/services/tag_service.go:265-271 | with all four groups empty every stored picture is returned |
| TagService.GroupMatches | backend/services/tag_service.go:284-294 | no contract of its own; AnyOfGroup, SingleTagIgnoresOperator, AllOfGroup and AllOfGroupWithDuplicates state what each sub-query form selects |
| TagService.Matches | backend/services/tag_service.go:297-305 | no contract of its own; MatchesEveryGroup states that it is the conjunction over the four groups |
| TagService.SearchResult | backend/services/tag_service.go:239-324 | only stored pictures are returned; SearchNarrows, EmptyCriteriaReturnsAll and UnknownTagsMatchNothing state its meaning |
| TagService.SearchCriteria.WithGroup | backend/services/tag_service.go:249-262 | the group in that slot is replaced and the other three are unchanged |
| TagService.MatchesEveryGroup | backend/services/tag_service.go:249-305 | a picture matches iff every one of the four groups is satisfied, an empty group always being satisfied |
| TagService.UnknownTagsMatchNothing | backend/services/tag_service.go:313-315 | a non-empty group, in any slot and of either operator, whose names no association carries gives an empty result, not an error |
| TagService.AllOfWithUnknownTagMatchesNothing | backend/services/tag_service.go:289-293 | an all-of group of two or more names, in any slot, with one name no association carries gives an empty result |
| TagService.SearchNarrows | backend/services/tag_service.go:249-262 | the result holds only stored pictures; with one slot emptied, a picture matches iff the other three groups hold; filling that slot with any group can only narrow the result |
| TagService.AllMatchOrderFree | backend/services/tag_service.go:300-305 | the order in which the groups are intersected does not matter |
| TagService.GroupPaths | backend/services/tag_service.go:276-295 | one group's sub-query selects exactly the paths the group matches |
| TagService.CollectedGroups | backend/services/tag_service.go:249-262 | the collected groups are non-empty, and a picture satisfies all of them iff it satisfies the four-group formula |
| TagService.NonEmptyGroups | backend/services/tag_service.go:249-262 | at most four groups, each with tags, and none exactly when all four are empty |
| TagService.SubQuery | backend/services/tag_service.go:283-294 | a SELECT, in the any-of form exactly for an "or" operator or a single tag and in the all-of form otherwise |
| TagService.FinalQuery | backend/services/tag_service.go:297-305 | the lone sub-query unchanged; any other number of sub-queries gives text that opens with a parenthesis |
| TagService.SearchAsWritten | backend/services/tag_service.go:239-311 | the service's search as written fails exactly when two or more groups are non-empty |
| TagService.AsWrittenAgreesUpToOneGroup | backend/services/tag_service.go:264-311 | with at most one non-empty group the search as written returns exactly the intended result |
| TagService.PersonAndPlaceSearchFails | backend/services/tag_service.go:300-311 | a picture tagged "Alice" and "Paris", searched for with persons ["Alice"] and locations ["Paris"]: the intended result is that picture, while the search as written fails |
| TagService.TagStore.constructor | backend/services/tag_service.go:11-17 | the service over tables that hold the indexed pictures, no tag and no association, which is consistent |
| TagService.TagStore.CreateTag | backend/services/tag_service.go:20-58 | status and new tables are those of CreateTagStep |
| TagService.TagStore.UpdateTag | backend/services/tag_service.go:106-124 | status and new tables are those of UpdateTagStep |
| TagService.TagStore.DeleteTag | backend/services/tag_service.go:127-147 | status and new tables are those of DeleteTagStep |
| TagService.TagStore.AddTagToPicture | backend/services/tag_service.go:150-184 | status and new tables are those of AddTagToPictureStep |
| TagService.TagStore.RemoveTagFromPicture | backend/services/tag_service.go:187-198 | status and new tables are those of RemoveTagFromPictureStep |
| TagService.TagStore.GetTagsForPicture | backend/services/tag_service.go:201-217 | a tag row is returned iff the tag exists and the picture has an association with it |
| TagService.TagStore.GetAllTagsWithCount | backend/services/tag_service.go:82-103 | each row the tags query returned, in order, with the number of its association rows; when those rows list the tags table, every tag appears exactly once, with its own row and count |
| TagService.TagStore.CollectGroups | backend/services/tag_service.go:249-262 | the non-empty groups in the order persons, locations, events, others |
| TagService.TagStore.IntersectGroups | backend/services/tag_service.go:297-311 | a path is in the intersection iff every collected group matches it |
| TagService.TagStore.SearchPicturesAdvanced | backend/services/tag_service.go:239-324 | the intended search: exactly the stored pictures that satisfy every non-empty group (the text the service sends fails instead for two or more groups; see "## Findings") |
| SearchBar.Criteria.WithGroup | frontend/src/components/SearchBar.tsx:105-108 | the group of that type is replaced and the other three are unchanged |
| SearchBar.Without | frontend/src/components/SearchBar.tsx:103 | the filter keeps exactly the other names; it is the identity when the name is absent; it keeps a list free of repeats |
| SearchBar.ToggleName | frontend/src/components/SearchBar.tsx:101-104 | the name is in the new list iff it was not in the old one, and every other name is in it iff it was before |
| SearchBar.WithTagToggled | frontend/src/components/SearchBar.tsx:99-110 | the name is in the new group iff it was not in the old one; it is appended at the end when absent; other names, the operator and the other groups are unchanged |
| SearchBar.Flip | frontend/src/components/SearchBar.tsx:117 | the operator changes to the other of AND and OR; ToggleOperatorTwice states that two flips are the identity |
| SearchBar.WithOperatorToggled | frontend/src/components/SearchBar.tsx:112-120 | only that group's operator changes, to the other value |
| SearchBar.ToggleTagTwice | frontend/src/components/SearchBar.tsx:101-104 | toggling twice restores the group's set of names, and the exact criteria when the name was absent |
| SearchBar.ToggleTagKeepsDistinct | frontend/src/components/SearchBar.tsx:101-104 | toggling never puts a name twice into a group with no repeated name |
| SearchBar.WithoutAppended | frontend/src/components/SearchBar.tsx:101-104 | removing a name just appended gives back the list before it |
| SearchBar.ToggleOperatorTwice | frontend/src/components/SearchBar.tsx:112-120 | toggling an operator twice is the identity |
| SearchBar.InitialCriteria | frontend/src/components/SearchBar.tsx:44-49 | every group empty; the person group AND, the other three OR |
| SearchBar.HasAnyCriteria | frontend/src/components/SearchBar.tsx:80-84 | no contract of its own; TotalSelectedCountsCriteria and EffectFor state its meaning |
| SearchBar.TotalSelected | frontend/src/components/SearchBar.tsx:131-135 | zero exactly when every group is empty |
| SearchBar.TotalSelectedCountsCriteria | frontend/src/components/SearchBar.tsx:80-84 | "has any criteria" holds iff the selected count is positive; the initial criteria count zero |
| SearchBar.ToSearchCriteria | frontend/src/components/SearchBar.tsx:87-92 | person, location, event and other go to persons, locations, events and others, with tags and operator text copied |
| SearchBar.EffectFor | frontend/src/components/SearchBar.tsx:79-97 | a search with the payload exactly when some group has a tag, otherwise a clear |
| SearchBar.GroupPayloadMeaning | frontend/src/components/SearchBar.tsx:87-92 | over distinct names, one group's payload matches in the backend iff the picture has all (AND) or any (OR) of the selected names |
| SearchBar.PayloadMeansSelection | frontend/src/components/SearchBar.tsx:86-93 | with no repeated names, the backend search over the payload selects exactly the pictures the selection means |
| SearchBar.AliceScenario | frontend/src/components/SearchBar.tsx:99-110 | selecting the one person "Alice" sends a search that matches a picture tagged Alice and misses one tagged only Bob |
| SearchBar.BucketOf | frontend/src/components/SearchBar.tsx:63-68 | person, location and event go to their own bucket; a type that is not one of the four goes to the "other" bucket |
| SearchBar.BucketMembership | frontend/src/components/SearchBar.tsx:61-69 | a loaded tag is in a bucket iff that bucket is its type's |
| SearchBar.BucketsPartition | frontend/src/components/SearchBar.tsx:61-69 | the four buckets together hold as many entries as were loaded |
| SearchBar.GroupByType | frontend/src/components/SearchBar.tsx:61-69 | the loop fills each bucket with the loaded tags of that bucket, in load order |
| SearchBar.SearchBarState.constructor | frontend/src/components/SearchBar.tsx:44-49 | the initial criteria: every group empty, person AND, the others OR |
| SearchBar.SearchBarState.LoadTags | frontend/src/components/SearchBar.tsx:54-76 | on success the tags and their buckets are stored; on failure nothing changes |
| SearchBar.SearchBarState.ToggleTag | frontend/src/components/SearchBar.tsx:99-110 | the criteria become the toggled criteria, the groups stay free of repeats, and the effect follows the new criteria |
| SearchBar.SearchBarState.ToggleOperator | frontend/src/components/SearchBar.tsx:112-120 | the criteria become the operator-toggled criteria and the effect follows them |
| SearchBar.SearchBarState.ClearAll | frontend/src/components/SearchBar.tsx:122-129 | the criteria are restored to the initial value and the effect clears the search |
| ImageViewer.NextIndex | frontend/src/components/ImageViewer.tsx:125-127 | an index inside the list stays inside it; NavigationIsCircular states that it is a step forward around the circle |
| ImageViewer.PreviousIndex | frontend/src/components/ImageViewer.tsx:121-123 | an index inside the list stays inside it; NavigationIsCircular states that it is a step back around the circle |
| ImageViewer.IndexAfterDelete | frontend/src/components/ImageViewer.tsx:107-110 | from more than one picture, the kept index lies in [0, n-2] |
| ImageViewer.Divisor | frontend/src/components/ImageViewer.tsx:163-167 | the divisor of the shown number: positive, and a multiple of 1024 for KB and MB; UnitScale states the bounds on the number shown |
| ImageViewer.UnitFor | frontend/src/components/ImageViewer.tsx:163-167 | B exactly below 1024 bytes, MB exactly from 1024² bytes, KB in between |
| ImageViewer.NavigationIsCircular | frontend/src/components/ImageViewer.tsx:121-127 | inside the list the two moves are steps of one around a circle of length n |
| ImageViewer.NavigationRoundTrip | frontend/src/components/ImageViewer.tsx:121-127 | the index stays in range, and next and previous undo each other |
| ImageViewer.IndexAfterDeleteShowsNeighbour | frontend/src/components/ImageViewer.tsx:107-110 | after a delete from more than one picture, the index lies in [0, n-2] and shows the next picture, or the previous one when the last was deleted |
| ImageViewer.UnitScale | frontend/src/components/ImageViewer.tsx:163-167 | B below 1024, KB below 1024², MB above; the shown number is at least 1 for KB and MB and below 1024 for B and KB; a larger size never gets a smaller unit |
| ImageViewer.AvailableTags | frontend/src/components/ImageViewer.tsx:85-87 | a tag is available iff it is loaded and the picture carries no tag of its name |
| ImageViewer.AvailableTagsKeepsOrder | frontend/src/components/ImageViewer.tsx:85-87 | the filter keeps load order: it distributes over concatenation |
| ImageViewer.AvailableTagsNoneCarried | frontend/src/components/ImageViewer.tsx:85-87 | with no tag carried every loaded tag is available |
| ImageViewer.AvailableTagsAllCarried | frontend/src/components/ImageViewer.tsx:85-87 | when every loaded name is carried nothing is available |
| ImageViewer.KeyActionFor | frontend/src/components/ImageViewer.tsx:131-156 | with the dialog open only Escape acts, and it closes the dialog; with it closed Escape closes the viewer, the arrows move back and forward, "i" toggles the info panel and Delete opens the dialog; no key closes a closed dialog, and unlisted keys do nothing |
| ImageViewer.Viewer.constructor | frontend/src/components/ImageViewer.tsx:14-23 | the index is the initial index, info is shown, the dialog is closed, nothing is busy |
| ImageViewer.Viewer.CurrentPicture | frontend/src/components/ImageViewer.tsx:25 | a picture exactly when the index is inside the list, and then the one at the index |
| ImageViewer.Viewer.LoadAllTags | frontend/src/components/ImageViewer.tsx:28-38 | on success the tags are stored; a failed load keeps the list |
| ImageViewer.Viewer.LoadPictureTags | frontend/src/components/ImageViewer.tsx:41-53 | nothing without a current picture; otherwise one request for its tags, and a failed load empties them |
| ImageViewer.Viewer.GoToNext | frontend/src/components/ImageViewer.tsx:125-127 | the index moves forward with wrap-around and stays in range; nothing else changes |
| ImageViewer.Viewer.GoToPrevious | frontend/src/components/ImageViewer.tsx:121-123 | the index moves back with wrap-around and stays in range; nothing else changes |
| ImageViewer.Viewer.HandleKey | frontend/src/components/ImageViewer.tsx:131-156 | the state change and close request of the key's action, and nothing else |
| ImageViewer.Viewer.ToggleInfoPanel | frontend/src/components/ImageViewer.tsx:211-214 | only the info flag flips |
| ImageViewer.Viewer.OpenDeleteDialog | frontend/src/components/ImageViewer.tsx:197-201 | only the dialog opens |
| ImageViewer.Viewer.CancelDelete | frontend/src/components/ImageViewer.tsx:430-431 | the cancel button closes the dialog unless a delete is in flight |
| ImageViewer.Viewer.CloseDialogFromBackdrop | frontend/src/components/ImageViewer.tsx:398-404 | a click on the backdrop closes the dialog, even while a delete is in flight, and changes nothing else |
| ImageViewer.Viewer.HandleDelete | frontend/src/components/ImageViewer.tsx:89-119 | a no-op while deleting or without a picture; on failure an alert, with index and dialog unchanged; on success the parent is notified, the viewer closes for a single picture or re-indexes and closes the dialog; the busy flag ends false |
| ImageViewer.Viewer.ToggleTagSelector | frontend/src/components/ImageViewer.tsx:324-325 | the selector flips unless busy or nothing is available |
| ImageViewer.Viewer.HandleAddTag | frontend/src/components/ImageViewer.tsx:55-68 | a no-op while busy or without a picture; otherwise the add, a reload on success, the busy flag reset, and the selector always closed |
| ImageViewer.Viewer.HandleRemoveTag | frontend/src/components/ImageViewer.tsx:70-82 | as adding, but the selector is left as it was |
| TagManager.TypeLabel | frontend/src/components/TagManager.tsx:113-115 | the French label of each of the four types; the type itself exactly when it is not one of them |
| TagManager.TypeIcon | frontend/src/components/TagManager.tsx:117-124 | the person, location and event icons; the generic icon exactly for every other type |
| TagManager.TagForm.constructor | frontend/src/components/TagManager.tsx:27-35 | an empty list, not loading, the form closed in create mode with an empty name, type "other" and the default blue |
| TagManager.TagForm.LoadTags | frontend/src/components/TagManager.tsx:41-48 | one list request; the list is replaced on success and kept on failure |
| TagManager.TagForm.ResetForm | frontend/src/components/TagManager.tsx:50-56 | empty name, type "other", default colour, form hidden, not editing |
| TagManager.TagForm.OpenCreateForm | frontend/src/components/TagManager.tsx:131-132 | while loading nothing changes; otherwise a reset form, opened in create mode |
| TagManager.TagForm.HandleEdit | frontend/src/components/TagManager.tsx:76-82 | while loading nothing changes, since the row's edit button is disabled (lines 244-245); otherwise the tag's name, type and colour (the default blue for an empty colour) in the form, opened in edit mode |
| TagManager.TagForm.SetFormType | frontend/src/components/TagManager.tsx:165 | only the form's type changes, to the chosen one |
| TagManager.TagForm.SetFormColor | frontend/src/components/TagManager.tsx:181 | only the form's colour changes, to the chosen one |
| TagManager.TagForm.SetFormName | frontend/src/components/TagManager.tsx:152-154 | the name field ignores input in edit mode |
| TagManager.TagForm.HandleCreate | frontend/src/components/TagManager.tsx:58-74 | a blank trimmed name gives only an alert and no call; otherwise the trimmed name is sent, a reload and reset follow on success and an alert on failure; loading ends false |
| TagManager.TagForm.SendCreate | frontend/src/components/TagManager.tsx:64-73 | the create call with the form's type and colour, then a reload and reset, or an alert |
| TagManager.TagForm.HandleUpdate | frontend/src/components/TagManager.tsx:84-97 | a no-op outside edit mode; the name sent is always the edited tag's own |
| TagManager.TagForm.Submit | frontend/src/components/TagManager.tsx:202-204 | nothing while disabled; otherwise update in edit mode and create with the trimmed name otherwise |
| TagManager.TagForm.HandleDelete | frontend/src/components/TagManager.tsx:99-111 | nothing while loading, since the row's delete button is disabled (lines 254-255), and nothing unless confirmed; otherwise the delete call, then a reload or an alert, and loading ends false |
| TagManager.CreateFromFormStoresSentName | frontend/src/components/TagManager.tsx:66 | with ASCII white space, the store holds exactly the name the form sent, and sending it again is refused as a duplicate |
| TagManager.Truthy | frontend/src/components/TagManager.tsx:85 | no contract of its own: JavaScript truthiness of `editingTag`, present and non-empty; HandleUpdate, SetFormName and Submit state the choices it makes (lines 85, 154, 203-204) |
| TagManager.SubmitDisabled | frontend/src/components/TagManager.tsx:204 | no contract of its own; Submit and EnabledCreatePassesValidation state what an enabled button means |
| TagManager.EnabledCreatePassesValidation | frontend/src/components/TagManager.tsx:204 | an enabled create button means a non-blank name that the backend's name check accepts |
| Indexer.ExtStart | backend/services/indexer.go:36 | the last '.' of the final path element, or the end of the path when there is none |
| Indexer.Ext | backend/services/indexer.go:36 | a suffix of the path, empty or starting with '.', with no further '.' or separator |
| Indexer.IsSupportedName | backend/services/indexer.go:35-43 | no contract of its own; IsSupportedImage, CaseInsensitive, RejectedNames and FinalExtensionOnly state its meaning |
| Indexer.IsSupportedImage | backend/services/indexer.go:35-43 | the loop answers true iff the lower-cased extension is in the list |
| Indexer.CaseInsensitive | backend/services/indexer.go:36 | two names equal up to letter case are accepted alike |
| Indexer.ExtUpToCase | backend/services/indexer.go:36 | names equal up to letter case have extensions equal up to letter case |
| Indexer.RejectedNames | backend/services/indexer.go:36-42 | a name without extension is rejected; an accepted extension starts with '.' and has four or five characters |
| Indexer.ExtFromLastDot | backend/services/indexer.go:36 | the extension starts at the last '.' when no separator follows it |
| Indexer.NoExtAfterSeparator | backend/services/indexer.go:36 | a final path element without '.' has no extension |
| Indexer.FinalExtensionOnly | backend/services/indexer.go:36-37 | only the final extension counts, in any case: "a.png.JPG" is accepted |
| Indexer.DotBeforeSeparator | backend/services/indexer.go:36 | a '.' before the last separator starts no extension |
| Indexer.Base | backend/services/indexer.go:197 | no contract of its own: `filepath.Base`, also used at lines 79 and 132; StripTrailingSeparators, AfterLastSeparator and BaseOfJoin state its meaning |
| Indexer.StripTrailingSeparators | backend/services/indexer.go:197 | a prefix that ends without a separator, and only separators were removed |
| Indexer.AfterLastSeparator | backend/services/indexer.go:197 | the longest separator-free suffix |
| Indexer.BaseOfJoin | backend/services/indexer.go:197 | the base of a folder joined with a name is that name |
| Indexer.ThumbnailName | backend/services/indexer.go:197 | "thumb_" followed by the base name, six characters longer than it |
| Indexer.ThumbnailPath | backend/services/indexer.go:190-198 | no contract of its own; NamesakesShareThumbnail states what it means for two folders |
| Indexer.NamesakesShareThumbnail | backend/services/indexer.go:197-198 | the thumbnail name is "thumb_" and the base name, so images with the same name in two folders share one thumbnail path |
| Indexer.IsImageEntry | backend/services/indexer.go:63 | no contract of its own; ScanKeepsOnlyKept and ScanKeepsEveryKept state what the filter keeps |
| Indexer.ScanWith | backend/services/indexer.go:59-70 | on success at most one path per walk entry; a failure is always the scan error |
| Indexer.Scan | backend/services/indexer.go:59-70 | no contract of its own; ScanWith's, ScanFailsOnWalkError's, ScanKeepsOnlyKept's and ScanKeepsEveryKept's state its meaning |
| Indexer.ScanFailsOnWalkError | backend/services/indexer.go:58-70 | the collection fails iff the walk reported an error, and then with the scan error |
| Indexer.ScanKeepsOnlyKept | backend/services/indexer.go:62-67 | every collected path is that of a file entry that passed the filter |
| Indexer.ScanKeepsEveryKept | backend/services/indexer.go:62-67 | every file entry that passed the filter is collected |
| Indexer.CountIndexed | backend/services/indexer.go:72-92 | at most the number of files |
| Indexer.ProgressReports | backend/services/indexer.go:76-80 | one report per file, in order |
| Indexer.CountIndexedBounds | backend/services/indexer.go:72-92 | the count is all files when all succeed and none when all fail; it grows with the set of succeeding files |
| Indexer.CollectImageFiles | backend/services/indexer.go:58-70 | the walk callback's result is the collected list, or the scan error |
| Indexer.IndexFiles | backend/services/indexer.go:72-92 | the count of files whose indexing succeeded, at most the total, and the reports (i+1, total, base name) in order when a callback is given |
| Indexer.IndexFolder | backend/services/indexer.go:47-93 | folder not found, not a directory, scan error, or the count and progress of the second pass |
| Indexer.IndexImageStep | backend/services/indexer.go:96-146 | skipped iff stored and the first stat's time equals the stored modification time; a failed stat is CannotStat, and only that; every other file gives, in source order, CannotExtract without metadata, CannotSave when the save fails, or the stored picture with the base name, the metadata's size, dimensions and time (as both creation and modification time) and the given indexing time |
| Indexer.UnchangedIsSkipped | backend/services/indexer.go:107-113 | an unchanged stored picture is skipped whatever decoding and saving would do, and the skip is not an error |
| Indexer.StoredThenSkipped | backend/services/indexer.go:107-143 | a new or changed file that decodes and saves is stored, and skipped on the next run while its time is unchanged, when both stats report the same time |
| ImageUrl.ToForwardSlashes | frontend/src/utils/imageUrl.ts:8 | the same length, with each backslash turned into '/' and every other character kept |
| ImageUrl.GetImageUrl | frontend/src/utils/imageUrl.ts:5-11 | the "/localfile/" prefix, 11 more characters than the input, no backslash, and every other character kept at its place |
| ImageUrl.ToForwardSlashesIdempotent | frontend/src/utils/imageUrl.ts:8 | converting twice is converting once |
| ImageUrl.NoBackslashVerbatim | frontend/src/utils/imageUrl.ts:7-10 | a path without backslash is unchanged after the prefix |
| LocalFile.ExtractFilePath | main.go:24 | for a prefixed request, the prefix followed by the result is the request path |
| LocalFile.DecodeFilePath | main.go:24-28 | no contract of its own; DecodedHasNoEscapes, RoundTrip and PercentInNameIsDecoded state its meaning |
| LocalFile.Handle | main.go:19-44 | pass-through iff not prefixed; 404 iff prefixed and the file does not exist; otherwise the decoded path is served |
| LocalFile.PrefixRemovedOnce | main.go:24 | the prefix is removed exactly once, even when the rest of the path begins with it again |
| LocalFile.DecodedHasNoEscapes | main.go:27-28 | the decoded path contains neither "%20" nor "%5C" |
| LocalFile.RoundTrip | main.go:24-28 | for a path without '%', decoding its URL gives the path with forward slashes |
| LocalFile.PercentInNameIsDecoded | main.go:27 | a name literally containing "%20" is decoded to a space, so the round trip needs the no-'%' condition |
| LocalFile.OtherRequestsPassThrough | main.go:41-42 | a request outside the prefix passes through whatever the file system says |

## Left out

- Database errors (GORM and SQLite failures, the uninitialised-database guard) are left out. The store operations always reach the database, and their only errors are the validation outcomes.
- The schema's timestamp columns (`CreatedAt` of tags and associations) are left out. No rule reads them.
- `GetAllTags` is not modelled: it is a plain query with no rule of its own. The frontends receive its answer as a parameter.
- TagService.TagStore.GetAllTagsWithCount: the rows of the tags query are a parameter. The every-tag-once property is stated under the condition that those rows list the table.
- TagService.TagStore.SearchPicturesAdvanced returns a set of paths, not the picture rows in the database's order. The SQL has no ORDER BY, so the order is unspecified.
- The SQL argument list is left out. The SQL text is modelled only as far as the final query's first character, which is what decides the failure described under "## Findings"; SQLite's parsing is not otherwise modelled.
- TagService.TagStore.SearchPicturesAdvanced returns the intended intersection, where SQLite would reject the text the service sends for two or more non-empty groups. `SearchAsWritten` models that failure.
- TagService.TagStore.GetTagsForPicture returns a set of tags, not a slice. The query has no ORDER BY, so the order is unspecified, and the association table's key rules out duplicates.
- Text.TrimSpace, Text.ToUpper and Text.ToLower cover ASCII only. The model does not capture Go's and JavaScript's Unicode white space and case mapping. For example, `strings.ToUpper` maps some non-ASCII letters to ASCII ones, and `strings.ToLower` maps U+0130 'İ' to 'i'. So Indexer.IsSupportedImage rejects "photo.GİF", which the source's extension filter accepts.
- Text.TrimSpace stands for both JavaScript's `trim()` in the tag form and Go's `strings.TrimSpace` in the service. The two differ beyond ASCII: U+0085 is trimmed by Go only, and U+FEFF by JavaScript only. TrimSpaceIdempotent and CreateFromFormStoresSentName therefore hold for ASCII white space; a name ending in U+0085 is trimmed again by the backend.
- SearchBar.GroupByType: the model does not capture a type string that names a property inherited by JavaScript objects (such as "constructor"). In JavaScript such a type makes the loop throw, and the buckets are then not stored at all; the model puts that tag in "other".
- React rendering, effect re-run timing, listener registration and the interleaving of asynchronous handlers are left out. Each handler is one atomic step; backend answers are parameters; requests, alerts and parent callbacks are returned effects.
- The viewer's key handler can still see the state from before an await returns; this is not modelled.
- ImageViewer.Viewer: the picture list is the value the component was opened with. The parent's bookkeeping after `onDelete` is not modelled: the component only emits the notification.
- The render guards of the viewer's JSX are left out, except the button conditions cited above.
- The viewer's date formatting is left out, and so is the decimal text of the size (`toFixed`). Only the unit choice is modelled.
- The confirmation dialog and `alert` of the tag manager are a parameter (`confirmed`) and effects.
- A `null` answer of a list request (`result || []`) is the caller's empty list.
- The colour palette and the colour, type and cancel buttons beyond their setters are left out.
- The file-system walk, `os.Stat`, image decoding and database saves are inputs: walk entries in visiting order, a stat outcome, a metadata option, a save flag and a per-file success oracle.
- Indexer.IndexImageStep: the metadata option is unconstrained. In the source only the GIF, JPEG and PNG decoders are registered (indexer.go:6-8), while the extension filter also admits ".bmp" and ".webp" (indexer.go:32). So `image.DecodeConfig` (indexer.go:172-175) should fail on real BMP and WebP content, and such files should count as failures and never be stored. The model can store them.
- Indexer.IndexImageStep takes two times: `modTime`, from the first stat (indexer.go:102-105), and the metadata's time, from the second stat inside `extractMetadata`. Indexer.StoredThenSkipped assumes the two are equal, so the file must not change between them. The precision of file modification times is left out.
- Indexer.IndexImageStep sets the indexing time to a given `now`. The database's own timestamp behaviour on an upsert is not modelled.
- The thumbnail's file work (`generateThumbnail` creating directories and copying) is left out, because its failure is ignored. Only its path is modelled.
- Indexer.Base models `filepath.Base` with Windows separators. It does not model volume names, and it has no contract of its own; BaseOfJoin states its meaning. `filepath.Join`'s cleaning of the folder part is not modelled.
- The folder path of IndexFolder is passed through unchanged.
- LocalFile.Handle takes the request path after the browser's and the HTTP library's own URL handling. The model does not capture those earlier steps: a `%` escape in the URL is decoded before the handler sees it, and a `#` in a file name starts a URL fragment, so everything after it never reaches the handler. LocalFile.RoundTrip is a property of the two pure functions, not of that whole path.
- `http.ServeFile` and its own handling of the path are left out. The model stops at the decision to serve the decoded path.
- `app.go` is not part of this model: its methods are one-line forwards. Neither are `PhotoGallery.tsx`, `WatchedFolders.tsx`, `App.tsx`, `vite.config.ts` and `backend/database/database.go`, which only fetch, render or open the database.

## Findings

| source | as written | input that shows it | evidently intended | confidence | as-written member | corrected member |
|---|---|---|---|---|---|---|
| backend/services/tag_service.go:300-311 | with two or more non-empty groups the final query is every sub-query in parentheses joined by `) INTERSECT (`; SQLite allows no parenthesised operand in a compound SELECT and no statement that opens with a parenthesis, so the query is rejected and the search returns "cannot execute search query" | a picture tagged "Alice" (person) and "Paris" (location), searched for with persons ["Alice"] and locations ["Paris"] | the stored pictures that satisfy every non-empty group, here that one picture | high, not executed | TagService.PersonAndPlaceSearchFails | TagService.TagStore.SearchPicturesAdvanced |
