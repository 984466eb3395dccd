# Memoshare, modelled in Dafny

Memoshare is a family web app: a family tree, a chat dock, and a feed of posts
with photos. This project models the small deterministic rules inside it and
proves properties of them:

- how the tree server action `addFamilyMember` turns a relation word
  ("father", "wife", "sister", …) into stored relationship edges, and how
  database rows become UI records;
- the tree component's in-memory delete, edit and add handlers, and the
  parent-edge projection it lays out;
- the add-member form's gender prefill, partner flag and submit payloads;
- the chat window state (open and minimised windows, conversation reuse,
  message append) and the chat row mappers;
- the member search of the chat dock;
- the post composer (Markdown markers, the post guard, photo tags), the post
  card (likes, relative time, photo collage) and the feed row mapper;
- the display formatters for a member's years and full name;
- the members hook and the admin page's optimistic updates.

Every function is pure. Ids, clock readings, the current year, the year
parsed from a birth date, and the database's answers to inserts are
parameters. Strings are `seq<char>`. `Text` gives JavaScript's `split`,
`join`, `trim`, `toLowerCase`, `includes`, `substring` and `||` on strings
their meaning. `Seqs` supplies `filter` with order and membership facts. A
`Partial<FamilyMember>` is a `Patch` whose fields are
`Option<Option<T>>`: the outer `Option` says whether the key is present,
the inner one whether its value is defined. Spreading a patch over a
member (`{...m, ...data}`) is `ApplyPatch`.

Modules, one per source file:
- `TreeActions`: family-tree/actions.ts.
- `TreeView`: family-tree/index.tsx.
- `MemberForm`: add-member-form.tsx.
- `ChatContext`: chat-context.tsx.
- `ChatActions`: chat/actions.ts.
- `FamilyList`: family-list.tsx.
- `CreatePost`: create-post.tsx.
- `PostCard`: post-card.tsx.
- `FeedActions`: feed/actions.ts.
- `MemberNode`: node.tsx.
- `PersonDetails`: person-details-modal.tsx.
- `FamilyMembersHook`: use-family-members.ts.
- `RoomAdmin`: room/admin/page.tsx.
- `CoreTypes`: the records of packages/core/src/types.ts.
- `Fixtures`: the mock data of packages/core/src/mock-data.ts.

## Model

| member | source | states |
|---|---|---|
| TreeActions.MapMemberToUI | apps/web/components/family-tree/actions.ts:9-34 | firstName is `first_name`, else the first space-separated word of the profile's full name, else "Ukjent"; lastName is `last_name`, else the remaining words, else ""; firstName is never empty; gender is `gender` when truthy, else "other"; avatar is the row's, else the profile's, else undefined, never ""; email is the row's, else the profile's; every other column is copied |
| TreeActions.ProfileNamesFillMember | apps/web/components/family-tree/actions.ts:11-12 | for a row without name columns, the two names taken from a profile full name containing a space reassemble that full name |
| TreeActions.MapRelationshipToUI | apps/web/components/family-tree/actions.ts:36-43 | a relationship row is copied field for field |
| TreeActions.InsertedEdgeReadsBack | apps/web/components/family-tree/actions.ts:151-206 | an inserted relationship, read back through `mapRelationshipToUI`, carries the generated id and, seen from the member, the role of its relation word and its relative |
| TreeActions.GetFamilyTreeData | apps/web/components/family-tree/actions.ts:74-75 | every member row and every relationship row is mapped, one for one, in order |
| TreeActions.ServerRole | apps/web/components/family-tree/actions.ts:151-188 | father/mother/parent make the new member the relative's parent; partner/husband/wife/spouse make it a partner; brother/sister/sibling make it a sibling; son/daughter/child and every unlisted word make it a child |
| TreeActions.EdgeFor | apps/web/components/family-tree/actions.ts:151-187 | the stored edge always joins the new member and the relative, in one direction or the other, and is never of type `child` |
| TreeActions.EdgeRoleRoundTrip | apps/web/components/family-tree/actions.ts:156-187 | reading an edge back from the new member's side recovers the role and the relative; every readable edge is the edge of its role |
| TreeActions.RelationshipsToCreate | apps/web/components/family-tree/actions.ts:132-144 | the primary request comes first, only when both the relation word and the relative are truthy; the additional requests follow in their given order |
| TreeActions.EdgeInserts | apps/web/components/family-tree/actions.ts:148-200 | no insert at all when the member id is falsy; otherwise one insert per request, in order, carrying the request's status and the edge of its word |
| TreeActions.InsertedMemberReadsBack | apps/web/components/family-tree/actions.ts:98-129 | a member inserted with role "member" and read back through `mapMemberToUI` keeps its submitted names, gender and dates |
| TreeActions.AddFamilyMember | apps/web/components/family-tree/actions.ts:94-188 | with `existingMemberId` nothing is inserted and every edge uses that id; otherwise a failed insert returns its error message, and a successful one attaches every edge to the new id |
| TreeActions.PlannedEdgesJoinMemberToRelatives | apps/web/components/family-tree/actions.ts:132-188 | every planned edge joins the member to its request's relative, and the primary edge comes first |
| TreeActions.CreatedRelationshipsTouchMember | apps/web/components/family-tree/actions.ts:190-207 | every relationship reported as created has the new or linked member at one end |
| TreeView.HandleDelete | apps/web/components/family-tree/index.tsx:104-110 | the member with the id and every relationship touching it are removed; everything else is kept, every copy of it, in order; the form closes and the selection clears |
| TreeView.DeleteKeepsClosed | apps/web/components/family-tree/index.tsx:106-107 | if every relationship joined two existing members before the delete, the same holds after it |
| TreeView.DeleteUnknownIdKeepsData | apps/web/components/family-tree/index.tsx:106-107 | deleting an id that no member has and no relationship touches changes no data |
| TreeView.ClientRole | apps/web/components/family-tree/index.tsx:138-149 | "partner" gives a partner edge, son/daughter a child, father/mother a parent, and every other word (husband and wife included) a sibling |
| TreeView.ClientEdge | apps/web/components/family-tree/index.tsx:134-149 | the client's edge is the edge of its role, with the father/mother override reversing direction and type |
| TreeView.ClientServerAgreement | apps/web/components/family-tree/index.tsx:138-149 | client and server map a relation word to the same role exactly for the words the picker offers and "sibling" |
| TreeView.NewMember | apps/web/components/family-tree/index.tsx:123-128 | the new member takes the fresh id and "Ukjent" names unless the submitted keys supply them; every other submitted key sets its field, and a field whose key is absent stays undefined |
| TreeView.EditMembers | apps/web/components/family-tree/index.tsx:115 | the submitted fields are merged onto each member with the selected id; all other members are untouched |
| TreeView.HandleFormSubmit | apps/web/components/family-tree/index.tsx:112-153 | with a selection and no relation word the submitted fields are merged into the selected member; without a selection nothing changes; with a selection and a relation word one new member and one edge are appended |
| TreeView.EditTouchesOnlySelected | apps/web/components/family-tree/index.tsx:114-117 | an edit leaves the relationships and every unselected member as they were |
| TreeView.UntouchedEditChangesNothing | apps/web/components/family-tree/index.tsx:114-117 | saving the edit form without changes leaves the members as they were |
| TreeView.AddKeepsClosed | apps/web/components/family-tree/index.tsx:123-151 | an add from a selected member in the tree keeps every relationship between existing members |
| TreeView.LinkingCreatesPlaceholder | apps/web/components/family-tree/index.tsx:123-142 | submitting the link-existing payload creates a placeholder "Ukjent Ukjent" member, and the new edge does not reach the member that was chosen |
| TreeView.HandleFormSubmitLinking | apps/web/components/family-tree/index.tsx:112-153 | the corrected handler attaches a link-existing submission's edge to the chosen member and adds no member |
| TreeView.LinkingKeepsClosed | apps/web/components/family-tree/index.tsx:134-151 | with the correction, linking an existing member keeps every relationship between existing members |
| TreeView.LayoutNodes | apps/web/components/family-tree/index.tsx:157-162 | one layout node per member, in order, labelled with the first name |
| TreeView.LayoutEdges | apps/web/components/family-tree/index.tsx:164-172 | the layout edges are exactly the `parent` relationships, each with its id, source = fromId and target = toId |
| TreeView.LayoutEdgesAppend | apps/web/components/family-tree/index.tsx:164-172 | the projection distributes over concatenation, so it keeps the relationships' order |
| TreeView.LayoutAfterDelete | apps/web/components/family-tree/index.tsx:104-172 | after a delete no layout edge touches the deleted member, and every other parent edge is still drawn |
| MemberForm.PrefillGender | apps/web/components/family-tree/add-member-form.tsx:72-80 | mother/sister/daughter/wife give "female"; every other word, and no word, gives "male" |
| MemberForm.Reset | apps/web/components/family-tree/add-member-form.tsx:59-83 | editing loads the member as the form data; otherwise the form data is the default with the prefilled gender, and the selection is cleared; the mode is "new" either way |
| MemberForm.HandleSubmit | apps/web/components/family-tree/add-member-form.tsx:85-129 | linking mode with a chosen member submits only that id; otherwise the form data is submitted; a relationship status is included exactly when the relation is a partner relation |
| MemberForm.AvailableExistingMembers | apps/web/components/family-tree/add-member-form.tsx:165 | everyone except the member being edited, in order, with every copy of a kept member kept |
| MemberForm.DeleteTarget | apps/web/components/family-tree/add-member-form.tsx:45-50 | deletion goes ahead only for an edited member with a truthy id, and targets that id |
| TreeView.DeleteTargetRemovesMember | apps/web/components/family-tree/index.tsx:104-110 | confirming the delete in the edit form leaves no member with the edited id and no relationship touching it |
| TreeView.LinkingAChoiceKeepsClosed | apps/web/components/family-tree/add-member-form.tsx:165 | with the corrected handler, linking any member the form lists keeps every relationship between existing members |
| ChatContext.ChatTarget | apps/web/components/chat/chat-context.tsx:40-53 | the first conversation that includes both users, or otherwise a new one with participants [me, target] and no messages |
| ChatContext.StartChat | apps/web/components/chat/chat-context.tsx:38-64 | reuses an existing conversation or appends the new one; the conversation is opened without duplication, at the end of the open list when it was not there; it is un-minimised and the minimised list keeps its order; other windows are unchanged |
| ChatContext.CloseChat | apps/web/components/chat/chat-context.tsx:66-69 | the id leaves both window lists; other ids stay, in order |
| ChatContext.MinimizeChat | apps/web/components/chat/chat-context.tsx:71-75 | the id is added at the end of the minimised list only if absent, so the list stays duplicate-free and keeps its order; open windows are unchanged |
| ChatContext.MaximizeChat | apps/web/components/chat/chat-context.tsx:77-79 | the id leaves the minimised list and the rest keep their order; open windows are unchanged |
| ChatContext.MinimizeIdempotent | apps/web/components/chat/chat-context.tsx:71-75 | minimising twice is minimising once |
| ChatContext.MinimizeMaximizeRoundTrip | apps/web/components/chat/chat-context.tsx:71-79 | maximising a window that was just minimised restores the state |
| ChatContext.SendMessage | apps/web/components/chat/chat-context.tsx:81-96 | the unread message is appended to the matching conversation only, and that conversation's updatedAt becomes the message time |
| ChatContext.OtherParticipant | apps/web/components/chat/chat-context.tsx:117-120 | the first participant other than the current user in the first conversation with that id; some participant exactly when that conversation has one other than the current user; nothing for an unknown conversation |
| ChatContext.GetParticipant | apps/web/components/chat/chat-context.tsx:117-122 | the first directory entry with that participant's id, found exactly when the directory has one; nothing without a participant |
| ChatContext.NewChatShowsTarget | apps/web/components/chat/chat-context.tsx:44-53 | the window of a conversation just created by `startChat` shows the person the chat was started with |
| ChatContext.RunPreservesValid | apps/web/components/chat/chat-context.tsx:38-96 | after any sequence of chat operations, neither window list holds an id twice |
| ChatActions.MapMessageToUI | apps/web/components/chat/actions.ts:8-17 | id, sender and content are copied, the timestamp is `created_at`, and read is true only when the row says true |
| ChatActions.MapConversationToUI | apps/web/components/chat/actions.ts:19-29 | participants are the user ids in order, messages are mapped in order, both [] when absent, and updatedAt is `created_at` |
| ChatActions.SentMessageReadsBack | apps/web/components/chat/actions.ts:60-71 | a message inserted by `sendMessage` reads back with its sender, content and conversation, unread |
| ChatActions.MappedParticipantsInclude | apps/web/components/chat/actions.ts:26 | every participant row's user id appears among the mapped participant ids |
| FamilyList.FilteredMembers | apps/web/components/chat/family-list.tsx:13-18 | a member is listed exactly when it is not the current user and its lower-cased first or last name contains the lower-cased query; the list keeps the original order and every copy of a kept member |
| FamilyList.EmptyQueryKeepsEveryoneElse | apps/web/components/chat/family-list.tsx:15-17 | an empty query lists everyone except the current user |
| FamilyList.SearchIgnoresQueryCase | apps/web/components/chat/family-list.tsx:16-17 | lower-casing the query first changes nothing |
| FamilyList.NorwegianCaseIgnored | apps/web/components/chat/family-list.tsx:16-17 | the query "øy" finds a member named Øystein |
| CreatePost.Marker | apps/web/components/feed/create-post.tsx:65-68 | bold, italic and underline wrap in "**", "*" and "__"; any other command wraps in nothing |
| CreatePost.FormatText | apps/web/components/feed/create-post.tsx:56-72 | for an ordered, in-range selection, the text before and after it is kept, the selection is wrapped in the marker, and the length grows by twice the marker's length |
| CreatePost.FormatTextRoundTrip | apps/web/components/feed/create-post.tsx:63-70 | stripping the two markers from the result gives back the original text |
| CreatePost.HandlePost | apps/web/components/feed/create-post.tsx:24-33 | nothing happens when the text is blank and there is no media; otherwise the post is handed on and title, text, location and media are emptied and the composer collapses |
| CreatePost.PostingTwiceIsRefused | apps/web/components/feed/create-post.tsx:25-32 | a composer with non-blank text or some media posts, and right after that posting again is refused |
| CreatePost.AddTag | apps/web/components/feed/create-post.tsx:48-54 | the tag is appended to that item's tags (which start empty when missing) and to no other item; the tag picker closes; nothing else in the composer changes; an index with no item fails |
| CreatePost.AddTagAddsOneTag | apps/web/components/feed/create-post.tsx:48-54 | tagging adds exactly one tag to the post's media as a whole |
| CreatePost.AddImage | apps/web/components/feed/create-post.tsx:39-42 | the uploaded image, with no tags, goes after the existing media; nothing else in the composer changes |
| CreatePost.DropIndex | apps/web/components/feed/create-post.tsx:126 | the index filter drops exactly the element at that position and shifts the rest down by one |
| CreatePost.RemoveMedia | apps/web/components/feed/create-post.tsx:126 | removing preview `idx` drops exactly that element and keeps the rest in order; an index out of range changes nothing; only the media list ever changes |
| CreatePost.RemoveUndoesAdd | apps/web/components/feed/create-post.tsx:35-46 | removing the image just added restores the composer |
| PostCard.InitialLikes | apps/web/components/feed/post-card.tsx:16-17 | a card starts not liked, counting the post's stored likes |
| PostCard.ToggleLike | apps/web/components/feed/post-card.tsx:20-27 | a like raises the count by one and sets liked; an unlike lowers it by one and clears liked |
| PostCard.ToggleTwice | apps/web/components/feed/post-card.tsx:20-27 | two presses restore both the count and the flag |
| PostCard.PressesKeepCount | apps/web/components/feed/post-card.tsx:16-27 | after any number of presses, the count is the stored count plus one exactly when liked, and the card is liked after an odd number of presses |
| PostCard.DiffSeconds | apps/web/components/feed/post-card.tsx:32 | the whole seconds between the instants, rounded down, negative differences included |
| PostCard.AgeOf | apps/web/components/feed/post-card.tsx:34-37 | under 60 s (negative included) it is "just now"; under an hour, whole minutes in 1..59; under a day, whole hours in 1..23; otherwise the date |
| PostCard.AgeMonotone | apps/web/components/feed/post-card.tsx:34-37 | an older post never gets a fresher label, and the minutes and hours shown never decrease with age |
| PostCard.Collage | apps/web/components/feed/post-card.tsx:98-137 | no grid without media; one column for one item, two for more; at most 4 tiles; the first tile spans two columns exactly when there are 3 items; the "+n" overlay appears only on the 4th tile and only when there are more than 4 items |
| PostCard.CollageAccountsForAll | apps/web/components/feed/post-card.tsx:107-137 | the tiles shown plus the number on the overlay add up to the number of media items |
| FeedActions.MapAuthor | apps/web/components/feed/actions.ts:18-25 | the first name is the first space-separated word of the full name; with the remaining words it reassembles the full name; the role is "member" and the profile id is the user id; every other field is undefined |
| FeedActions.MapComment | apps/web/components/feed/actions.ts:27-40 | comment fields are copied, `created_at` is the timestamp, and the author is mapped when present |
| FeedActions.EffectiveMedia | apps/web/components/feed/actions.ts:16 | media is the stored list if non-empty; otherwise one image from a truthy `image_url`; otherwise empty |
| FeedActions.MapPostToUI | apps/web/components/feed/actions.ts:9-43 | likes are always empty; comments are mapped one for one, in order, and are [] when absent; the author is undefined when absent |
| FeedActions.ImageUrlFor | apps/web/components/feed/actions.ts:79 | `image_url` is the first media item's url, or null without media |
| FeedActions.CreatePost | apps/web/components/feed/actions.ts:72-89 | without a signed-in user it fails with "Not authenticated"; otherwise the row carries the family, the author, the text, the media and the derived `image_url` |
| FeedActions.CreatedPostReadsBack | apps/web/components/feed/actions.ts:16-89 | a post created with some media reads back with exactly that media, and one created without media reads back with none |
| FeedActions.LegacyImageShown | apps/web/components/feed/actions.ts:16 | a row with only a non-empty `image_url` shows that one image |
| MemberNode.YearOf | apps/web/components/family-tree/node.tsx:9-10 | the year part is the date's prefix up to its first "-", or the whole date when there is none |
| MemberNode.BirthYear | apps/web/components/family-tree/node.tsx:9 | the year part of the birth date, or "?" when the date is missing or its year part is empty |
| MemberNode.DateString | apps/web/components/family-tree/node.tsx:10-11 | "B - D" with a non-empty death year, otherwise "f. B" |
| MemberNode.DatesShowTheirYears | apps/web/components/family-tree/node.tsx:9-11 | for dates written year-first, the card shows the years they were built from |
| PersonDetails.FullName | apps/web/components/family-tree/person-details-modal.tsx:15 | the name's words (title and middle name only when truthy) joined by single spaces; "F L" without title or middle name |
| PersonDetails.FullNameSplitsIntoParts | apps/web/components/family-tree/person-details-modal.tsx:15 | splitting the shown name at spaces gives back the words, when none of them is empty or holds a space |
| PersonDetails.AgeOf | apps/web/components/family-tree/person-details-modal.tsx:16 | the current year minus the birth year when there is a birth date, otherwise "Ukjent" |
| PersonDetails.AgeAdvancesWithTheYear | apps/web/components/family-tree/person-details-modal.tsx:16 | a year later the age shown is one more; without a birth date it stays "Ukjent" |
| PersonDetails.Render | apps/web/components/family-tree/person-details-modal.tsx:13-16 | details render exactly when the modal is open with a member, showing that member's full name and age |
| FamilyMembersHook.MapRow | apps/web/hooks/use-family-members.ts:60-68 | userId, names and avatar take the row's columns first and the linked profile second, with "Ukjent" and "" as the last resort for the names; bio is always ""; every field the mapping does not set is undefined |
| FamilyMembersHook.MapRows | apps/web/hooks/use-family-members.ts:60 | one member per row, in order |
| FamilyMembersHook.HookNamesAgreeWithTree | apps/web/hooks/use-family-members.ts:63-64 | the hook and the tree's server mapping give every row the same names |
| RoomAdmin.MapRow | apps/web/app/room/admin/page.tsx:47-55 | names come only from the profile's full name, with "Ukjent" and "" as fallbacks; avatar and email come from the profile; every field the mapping does not set is undefined |
| RoomAdmin.MapRows | apps/web/app/room/admin/page.tsx:47 | one member per row, in order |
| RoomAdmin.AdminNamesAgreeWithTree | apps/web/app/room/admin/page.tsx:50-51 | for rows without name columns the admin page and the tree show the same names |
| RoomAdmin.UpdateRole | apps/web/app/room/admin/page.tsx:62-64 | only the member with the matching id gets the new role; every other member is identical |
| RoomAdmin.UpdateRoleLastWins | apps/web/app/room/admin/page.tsx:64 | a second role update for the same member replaces the first |
| RoomAdmin.RemoveMember | apps/web/app/room/admin/page.tsx:78-82 | exactly the members with that id go; the others keep every copy and their order |
| RoomAdmin.RemoveUnknownMember | apps/web/app/room/admin/page.tsx:82 | removing an id nobody has changes nothing |
| CoreTypes.ApplyOwnPatch | apps/web/components/family-tree/index.tsx:115 | spreading a member's complete field set over any member yields that member |
| CoreTypes.ProfileNamesReassemble | apps/web/components/family-tree/actions.ts:11-12 | the first word and the rest of a profile full name with a space rejoin to the full name |
| Fixtures.MockTreeIsClosed | packages/core/src/mock-data.ts:3-69 | every mock relationship joins two mock members |
| Fixtures.DeletingPer | packages/core/src/mock-data.ts:60-69 | deleting member "3" leaves exactly r1, r6 and r8 |
| Fixtures.DeletingPerKeepsOthers | packages/core/src/mock-data.ts:3-58 | deleting member "3" keeps the other five members in order |
| Fixtures.MockLayout | packages/core/src/mock-data.ts:60-69 | the mock tree's layout draws r2, r3, r5, r6, r7 and r8 |
| Fixtures.PerChatsWithOlav | packages/core/src/mock-data.ts:73-101 | member "3" starting a chat with member "1" reopens c1 and creates nothing |
| Fixtures.ParticipantOfC1 | packages/core/src/mock-data.ts:73-101 | for member "3", the other participant of c1 is Olav |
| Fixtures.OlavCard | packages/core/src/mock-data.ts:4-12 | Olav's card reads "f. 1950" |
| Fixtures.OlavDetails | packages/core/src/mock-data.ts:4-12 | Olav's full name is "Olav Nordmann" and his age counts from 1950 |

## Left out

- Supabase queries, inserts, auth and `revalidatePath` are I/O. The model keeps the pure mapping and switch logic around them. The database's answers to inserts are parameters.
- The error paths of the relationship inserts are left out: a failed relationship insert is skipped and the loop continues.
- The revert-by-reload after a failed admin write is left out.
- The `dagre` layout and the ReactFlow rendering belong to a foreign library. Only the nodes and edges handed to them are modelled.
- `setTimeout` drives the chat auto-reply (chat-context.tsx:98-114), which is left out.
- The regex-based Markdown renderer of the post card depends on JavaScript regular expressions and HTML, so it is left out.
- `toLocaleDateString` is locale-dependent: the date branch of `timeAgo` is the label `OnDate`, and the minute and hour labels are numbers rather than Norwegian text.
- Geometry is left out: tag positions are `real`s, and the percentage arithmetic that computes them is not modelled.
- FileReader and the upload plumbing are left out. `AddImage` starts from the data URL the reader produced, and appends it to the current media. The source's `reader.onload` (create-post.tsx:41) appends to the `media` captured when the upload started, so a preview removed while the file is still being read comes back there; the model does not represent this stale capture.
- Date parsing is left out: `new Date(birthDate).getFullYear()` is the `birthYear` parameter of `PersonDetails.AgeOf`, and the current year is a parameter.
- Text.Lower: folds the Latin-1 letters only (A to Z, and À to Þ without ×), because JavaScript's full Unicode case mapping is not modelled.
- FamilyList.FilteredMembers: letters outside Latin-1 (Greek, Cyrillic, Latin Extended such as Ŋ) are not case-folded, so a query that differs from a name only in the case of such letters finds nothing in the model, while the source finds the member.
- FeedActions.MapAuthor: `full_name` is always present in the model. The source splits it without a guard (feed/actions.ts:21-22 and 36-37), so a post or comment author with a null `full_name` makes `mapPostToUI` throw a TypeError, which the model does not represent.
- TreeView.HandleFormSubmit: the source spreads the whole submitted payload into the new member (index.tsx:115 and 125-128), so a partner add also stores a `relationshipStatus` key on that member. `Patch` has no such key, so the model drops it; nothing on the client reads it.
- `MemberForm` does not model the form's `handleChange`, because it only sets one key from a DOM event.
- The dialogs (`confirm`, `alert`) are left out, and so is the relationship inference that the form leaves unimplemented.
- CreatePost.AddTag: the source mutates the tag list in place, so the old media array sees the new tag too. The model returns new values, and that aliasing is not modelled.
- A key that is present in a `Partial` but explicitly `undefined` overrides a field in a spread. `Patch` expresses this for the optional fields only. `id`, `firstName` and `lastName` are always defined.
- The random id generators (`Math.random`, `Date.now`) are parameters, assumed fresh.

## Findings

| source | as written | input that shows it | evidently intended | confidence | as-written member | corrected member |
|---|---|---|---|---|---|---|
| apps/web/components/family-tree/index.tsx:112-142 | `handleFormSubmit` reads whatever the form submits as member fields, including the link-existing payload `{existingMemberId, relationshipStatus}` (add-member-form.tsx:88-93) | latent: index.tsx:224-232 passes no `existingMembers`, so the form's list is empty (add-member-form.tsx:25) and its required select cannot be submitted in linking mode. Once a caller passes the members, adding a "partner" to a selected member by choosing member "7" appends a new "Ukjent Ukjent" member with a fresh id, and the spouse edge runs to that placeholder, not to "7" | the edge joins the selected member and "7", and no member is added | not executed | TreeView.LinkingCreatesPlaceholder | TreeView.HandleFormSubmitLinking |
