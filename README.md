# Portfolio chat and navigation logic, modelled in Dafny

This project models the client-side logic of a personal portfolio site built with Next.js. It covers six parts:

- **Chat logic** (`chat_logic.dfy`, module `ChatLogic`). `detectIntent` lower-cases and trims the input. It tries the slash-command catalogue in list order, then a fixed keyword cascade, then answers `fallback`. `generateResponse` maps an intent to canned text and attaches two project cards for `projects`. The submit handler built by `createHandleSubmit` rejects blank input. Otherwise it appends the user's message at once, clears the search box, closes the suggestions and raises the typing flag. It then schedules a deferred step that appends the assistant's reply and lowers the flag. The deferred step is the transition `ChatSession.Complete`. The pending timers form a FIFO queue `scheduled`, because every timer has the same delay.
- **Command palette** (`command_palette.dfy`, module `CommandPalette`). A substring filter over the catalogue. An `active` cursor moved by ArrowUp/ArrowDown, clamped and without wrap-around. Enter selects the item under the cursor, if there is one. Escape asks the owner to close. The cursor resets to 0 whenever the memoised filtered list is recomputed into a new array. A query change between two queries that both normalise to "" gives back the items array itself, so it does not reset the cursor. Hover moves the cursor. Nothing is drawn while the palette is closed or the list is empty.
- **Search box** (`searchbar.dfy`, module `Searchbar`). `/` typed into an empty box becomes the value `/` and opens the suggestions. Escape closes them. A change event replaces the value. Submit hands over the trimmed value unless it is blank.
- **Message bubble** (`message_bubble.dfy`, module `MessageBubble`). Decides whether a message is the user's, whether it is a text response, which text it shows, which header label it gets, and which body its payload selects. The payload sum type is in `types.dfy`.
- **About paragraph** (`about.dfy`, module `About`). Splits the description on single spaces and strips `.` and `,` from each piece. Tests each cleaned piece against a fixed list of words, which is left as it is: so the entry `Next.js` can never match (see Findings). Gives piece `i` an animation delay of `i * 100` ms. `Spans` is the paragraph as written; `SpansIntended` is the same paragraph with the corrected test.
- **Navigation bar** (`navbar.dfy`, module `Navbar`). A fixed tab table. An effect that sets the active tab to the tab whose path is the current path, and only on a match. The tab click.

`text.dfy` (module `Text`) defines the JavaScript string operations these parts use. `trim` uses the exact set of ECMAScript white-space and line-terminator characters. It also defines `toLowerCase`, `includes` (by way of a prefix test at each position), `slice(1)` and `replace(/^\//, "")`.

Points of the code's behaviour worth noting:

- The submit handler echoes the query exactly as it receives it. It does not trim it.
- Every non-blank submit raises the typing flag and defers its reply, slash commands included.
- There is no network path in the chat logic: unknown intents get the built-in help text.
- The palette cursor is reset when the memoised list is recomputed into a new array, even when the new array has the same contents.
- The palette's position on screen is fixed by styling alone; no code computes it.

## Model

| member | source | states |
|---|---|---|
| `Text.TrimsToEmpty` | src/app/lib/chatLogic.ts:127 | `!query.trim()` holds exactly when every character of the query is white space or a line terminator |
| `Text.BlankIffTrimsToEmpty` | src/app/components/searchbar.tsx:21-22 | a string trims to the empty string if and only if it is blank |
| `Text.TrimSurroundedByBlanks` | src/app/components/searchbar.tsx:21 | `trim` only cuts off a blank prefix and a blank suffix: the input is blank + trimmed + blank |
| `Text.TrimHasNoSurroundingWhitespace` | src/app/components/searchbar.tsx:21 | the trimmed string neither starts nor ends with white space, so together with the previous row it is the maximal such cut |
| `Text.TrimUnpadded` | src/app/lib/chatLogic.ts:24 | a string that neither starts nor ends with white space is its own trim |
| `Text.TrimIdempotent` | src/app/components/searchbar.tsx:21 | trimming twice is trimming once |
| `Text.TrimIgnoresSurroundingBlanks` | src/app/lib/chatLogic.ts:24 | blank text added on either side of a string does not change its trim |
| `Text.TrimLower` | src/app/lib/chatLogic.ts:24 | trimming and ASCII lower-casing commute |
| `Text.LowerIdempotent` | src/app/lib/chatLogic.ts:24 | lower-casing twice is lower-casing once |
| `Text.LowerNoCapitals` | src/app/lib/chatLogic.ts:24 | a string without ASCII capital letters is its own lower-case form |
| `Text.LowerAppend` | src/app/lib/chatLogic.ts:24 | lower-casing distributes over concatenation |
| `Text.LowerBlank` | src/app/lib/chatLogic.ts:24 | lower-casing leaves a blank string unchanged |
| `Text.StripLeadingSlash` | src/app/components/command-palette.tsx:32 | `replace(/^\//, "")` removes at most one leading slash and nothing else |
| `Text.SliceFromOne` | src/app/lib/chatLogic.ts:26 | `slice(1)` drops exactly the first character, and gives "" for "" |
| `Text.ContainsAt` | src/app/lib/chatLogic.ts:26 | an occurrence of `sub` at any position makes `includes` true |
| `Text.ContainsWitness` | src/app/lib/chatLogic.ts:26 | when `includes` is true there is a position where `sub` occurs |
| `Text.NotContainsChar` | src/app/lib/chatLogic.ts:26 | a string cannot include a pattern that has a character the string lacks |
| `Text.ContainsSliceFromOne` | src/app/lib/chatLogic.ts:26 | a non-empty command includes itself minus its first character |
| `ChatLogic.FirstMatch` | src/app/lib/chatLogic.ts:25-27 | `find` yields the first matching catalogue index in list order, and yields nothing exactly when no entry matches |
| `ChatLogic.KeywordIntent` | src/app/lib/chatLogic.ts:29-34 | the keyword cascade answers one of projects, experience, skills, about, contact or fallback |
| `ChatLogic.ResolveNormalized` | src/app/lib/chatLogic.ts:25-34 | the detected intent is always a catalogue id or one of the cascade's fixed strings |
| `ChatLogic.DetectIntentFirstMatchWins` | src/app/lib/chatLogic.ts:23-28 | when entry k is the first matching entry, the intent is its id, whatever later entries and keywords say |
| `ChatLogic.DetectIntentNoMatch` | src/app/lib/chatLogic.ts:28-34 | with no matching entry the keyword cascade alone decides |
| `ChatLogic.ExactCommandIsContained` | src/app/lib/chatLogic.ts:26 | an entry matches if and only if the input includes its command minus the leading character, so the equality test is subsumed |
| `ChatLogic.DetectIntentIgnoresCase` | src/app/lib/chatLogic.ts:24 | inputs differing only in ASCII letter case resolve to the same intent |
| `ChatLogic.DetectIntentIgnoresSurroundingWhitespace` | src/app/lib/chatLogic.ts:24 | inputs differing only in surrounding white space resolve to the same intent |
| `ChatLogic.CommandIsNormalized` | src/app/chat/page.tsx:27-34 | every command of the chat page's catalogue is already lower-case and trimmed |
| `ChatLogic.CommandAt` | src/app/chat/page.tsx:27-34 | the catalogue's commands are `/about`, `/experience`, `/projects`, `/skills`, `/contact`, `/resume`, in that order |
| `ChatLogic.EarlierEntryMisses` | src/app/lib/chatLogic.ts:25-27 | on the chat page's catalogue no entry matches the command of a later entry, so `find` cannot stop early |
| `ChatLogic.SlashCommandResolves` | src/app/lib/chatLogic.ts:23-28 | on the chat page every catalogue command resolves to its own entry's id |
| `ChatLogic.CatalogueIntents` | src/app/chat/page.tsx:27-34 | of the catalogue's ids only `resume` has no dedicated answer, and only the third is `projects` |
| `ChatLogic.GenerateResponse` | src/app/lib/chatLogic.ts:38-103 | cards are attached if and only if the intent is `projects`, and then they are exactly the two featured cards; the help text is given if and only if the intent is not one of the five answered ones |
| `ChatLogic.Reply` | src/app/lib/chatLogic.ts:141-150 | the deferred step's message is an assistant message built from `generateResponse(detectIntent(query))` |
| `ChatLogic.SlashCommandCards` | src/app/lib/chatLogic.ts:38-103 | on the chat page `/projects` gets the two featured cards, and no other catalogue command gets cards |
| `ChatLogic.SlashCommandHelp` | src/app/lib/chatLogic.ts:38-103 | on the chat page `/resume` gets the help text, because it has no answer of its own; every other catalogue command gets its dedicated answer |
| `ChatLogic.LogAppend` | src/app/lib/chatLogic.ts:136 | appending a message extends exactly one of the user-query and reply projections of the log |
| `ChatLogic.RepliesTo` | src/app/lib/chatLogic.ts:141-151 | there is one reply per answered query |
| `ChatLogic.RepliesToAt` | src/app/lib/chatLogic.ts:141-151 | the i-th reply is the reply to the i-th query |
| `ChatLogic.SubmitKeepsLogInvariant` | src/app/lib/chatLogic.ts:126-139 | a non-blank submit keeps the log invariant: replies answer the earliest queries one for one, the unanswered queries are the scheduled ones in order, no query is blank |
| `ChatLogic.CompleteKeepsLogInvariant` | src/app/lib/chatLogic.ts:141-153 | the oldest deferred step keeps the log invariant |
| `ChatLogic.ChatSession.constructor` | src/app/chat/page.tsx:38-42 | a new handler starts with an empty log, nothing scheduled and the flags down |
| `ChatLogic.ChatSession.Submit` | src/app/lib/chatLogic.ts:126-139 | a blank query changes nothing; otherwise exactly one user message with the untrimmed query is appended, the search value becomes "", suggestions close, typing starts, the reply is scheduled, and the tab becomes `chat` when the caller passed `setActiveTab` |
| `ChatLogic.ChatSession.Complete` | src/app/lib/chatLogic.ts:141-153 | the deferred step appends exactly the reply to the oldest scheduled query and lowers the typing flag; nothing else changes |
| `ChatLogic.Conversation` | src/app/lib/chatLogic.ts:126-153 | on a fresh chat page a blank query leaves the log empty; any other query leaves its echo followed by its reply, with typing raised after the submit and lowered after the reply |
| `CommandPalette.FilterMatchingCount` | src/app/components/command-palette.tsx:34-39 | each item occurs in the filtered list as often as in the input when it matches, and never otherwise |
| `CommandPalette.FilterMatchingSubsequence` | src/app/components/command-palette.tsx:34-39 | the filtered list keeps the input's order |
| `CommandPalette.FilterMatchingIdempotent` | src/app/components/command-palette.tsx:34-39 | filtering the filtered list again with the same query changes nothing |
| `CommandPalette.FilterMatchingEmptyQuery` | src/app/components/command-palette.tsx:33-39 | the empty query matches every item |
| `CommandPalette.FilterItemsIsFilter` | src/app/components/command-palette.tsx:31-40 | the empty-query short cut returns what the filter itself would |
| `CommandPalette.FilterItemsSpec` | src/app/components/command-palette.tsx:31-40 | the palette's list is an order-preserving subsequence of the items holding exactly the matching ones, with their multiplicity |
| `CommandPalette.FilterItemsIdempotent` | src/app/components/command-palette.tsx:31-40 | filtering the shown list with the same query gives the same list |
| `CommandPalette.ArrowDownOnEmptyList` | src/app/components/command-palette.tsx:43-57 | with the palette open and the list empty, ArrowDown sets the cursor to -1 and a following ArrowUp sets it back to 0 |
| `CommandPalette.CursorStepInRange` | src/app/components/command-palette.tsx:50-57 | one key keeps the cursor on an item, or in -1..0 for an empty list |
| `CommandPalette.NavigateStaysInRange` | src/app/components/command-palette.tsx:50-57 | any key sequence keeps a cursor that starts on an item of a non-empty list on an item |
| `CommandPalette.RepeatArrowDown` | src/app/components/command-palette.tsx:50-53 | k ArrowDowns move the cursor k places down but stop at the last item: no wrap-around |
| `CommandPalette.RepeatArrowUp` | src/app/components/command-palette.tsx:54-57 | k ArrowUps move the cursor k places up but stop at the first item: no wrap-around |
| `CommandPalette.KeyEffect` | src/app/components/command-palette.tsx:46-64 | Escape and only Escape asks to close; Enter selects exactly when the cursor is on an item, and selects that item; no other key has an effect |
| `CommandPalette.KeyPrevented` | src/app/components/command-palette.tsx:46-64 | the default action is suppressed exactly for keys with an effect and for the arrows: always for Escape, ArrowDown and ArrowUp, for Enter only with an item under the cursor |
| `CommandPalette.NoRefilterSameList` | src/app/components/command-palette.tsx:31-40 | when the memo is not recomputed the list is unchanged, so resetting on recomputation resets on every change of the list |
| `CommandPalette.Palette.Rows` | src/app/components/command-palette.tsx:74-112 | nothing is drawn when closed or empty; otherwise one option per filtered item in order, highlighted exactly at the cursor, with its description shown exactly when it is non-empty |
| `CommandPalette.Palette.constructor` | src/app/components/command-palette.tsx:29-40 | the cursor starts at 0 and the list is the filter of the props |
| `CommandPalette.Palette.OnKey` | src/app/components/command-palette.tsx:43-68 | no key has any effect while the palette is closed; while open, the cursor takes one clamped step, the key's effect is reported along with whether its default action is suppressed, and the cursor stays in range |
| `CommandPalette.Palette.Hover` | src/app/components/command-palette.tsx:86 | hovering option i moves the cursor to i |
| `CommandPalette.Palette.Click` | src/app/components/command-palette.tsx:87 | clicking option i selects the i-th filtered item, which is one of the items, and changes nothing |
| `CommandPalette.Palette.Update` | src/app/components/command-palette.tsx:70-72 | new props recompute the list when the items array or a query that matters changes, and the cursor is then reset to 0; whenever the list changed, the cursor is 0 |
| `Searchbar.SearchBox.constructor` | src/app/components/searchbar.tsx:12 | the box shows the owner's value and suggestions flag |
| `Searchbar.SearchBox.OnChange` | src/app/components/searchbar.tsx:37 | a change event replaces the value with the input's text |
| `Searchbar.SearchBox.OnKeyDown` | src/app/components/searchbar.tsx:38-49 | `/` in an empty box is suppressed, sets the value to `/` and opens suggestions; `/` in a non-empty box is not intercepted; Escape closes suggestions and keeps the value; other keys change nothing |
| `Searchbar.SearchBox.Submit` | src/app/components/searchbar.tsx:18-25 | nothing is submitted exactly when the value is blank; otherwise the trimmed value is submitted once, non-empty and without surrounding white space |
| `Searchbar.SubmittedQueryIsNotBlank` | src/app/components/searchbar.tsx:21-24 | a submitted query is never blank and is already trimmed, so the chat handler always accepts it |
| `MessageBubble.TextContent` | src/app/components/MessageBubble.tsx:10 | the text shown is the content if non-empty, else the text payload's text, else "" |
| `MessageBubble.Header` | src/app/components/MessageBubble.tsx:12-35 | a header appears exactly for assistant messages with a rich payload, and the response icon it carries is always present |
| `MessageBubble.Render` | src/app/components/MessageBubble.tsx:17-72 | the bubble is right-aligned exactly for the user, has exactly one body, and that body is the text body exactly for text responses, showing the chosen text with the icon exactly for the assistant |
| `MessageBubble.HeaderLabelNamesKind` | src/app/components/MessageBubble.tsx:25-33 | a shown header is labelled Projects, Experience or Skills by payload kind, never Response |
| `MessageBubble.RichBodyShowsPayload` | src/app/components/MessageBubble.tsx:49-72 | a projects payload gives one card per project in order; experience entries and skill groups are passed on unchanged |
| `About.Split` | src/app/components/about.tsx:18 | splitting always yields at least one piece |
| `About.JoinSplit` | src/app/components/about.tsx:18 | joining the pieces with single spaces gives the description back |
| `About.SplitPieces` | src/app/components/about.tsx:18 | no piece contains a space and there is one piece more than there are spaces, so consecutive spaces give empty pieces |
| `About.CleanWordSpec` | src/app/components/about.tsx:19 | the cleaned word has no `.` or `,`, and a word without them is unchanged |
| `About.CleanWordAppend` | src/app/components/about.tsx:19 | cleaning distributes over concatenation |
| `About.CleanWordIdempotent` | src/app/components/about.tsx:19 | cleaning twice is cleaning once |
| `About.CleanWordOfPunctuation` | src/app/components/about.tsx:19 | a run of `.` and `,` cleans to nothing |
| `About.NextJsNeverHighlighted` | src/app/components/about.tsx:10-20 | no cleaned piece equals the list entry `Next.js` |
| `About.PiecesStartingWithNNotHighlighted` | src/app/components/about.tsx:10-20 | as written, no piece starting with `N` is highlighted, `Next.js` and `Next.js,` included |
| `About.CleanedHighlightWords` | src/app/components/about.tsx:10 | the list entries cleaned the way pieces are, entry by entry |
| `About.HighlightWordsAreHighlighted` | src/app/components/about.tsx:10-20 | under the corrected test every list entry followed by any run of `.` and `,` is highlighted |
| `About.IntendedExtendsAsWritten` | src/app/components/about.tsx:20 | the corrected test highlights every piece the written test highlights |
| `About.Spans` | src/app/components/about.tsx:18-28 | one span per piece in order, showing the piece verbatim, highlighted by the test as written, with delay `i * 100` ms |
| `About.SpansIntended` | src/app/components/about.tsx:10-28 | the corrected paragraph: the same texts and delays as the written one, highlighted by the corrected test |
| `About.SpansIntendedExtendsSpans` | src/app/components/about.tsx:10-28 | the corrected paragraph highlights every span the written one does, and a `Next.js` span that the written one leaves plain |
| `About.Texts` | src/app/components/about.tsx:28 | the spans' texts in order |
| `About.SpansRebuildDescription` | src/app/components/about.tsx:18-28 | the spans' texts joined with spaces give the description back |
| `About.DelaysIncrease` | src/app/components/about.tsx:26 | animation delays strictly increase with position |
| `Navbar.TabsDistinct` | src/app/components/navbar.tsx:12-17 | tab ids and paths are pairwise distinct |
| `Navbar.FindTab` | src/app/components/navbar.tsx:30 | `find` yields the first tab whose path equals the pathname, and nothing exactly when no tab has it |
| `Navbar.SyncedTab` | src/app/components/navbar.tsx:29-34 | on a path some tab links to, the active tab becomes that tab's id; on any other path it is kept |
| `Navbar.SyncIdempotent` | src/app/components/navbar.tsx:29-34 | syncing twice on the same path is syncing once |
| `Navbar.ResumePageKeepsItsTab` | src/app/resume/page.tsx:7 | the resume page's own active tab `resume` survives the sync, since no tab links to `/resume` |
| `Navbar.AtMostOneActive` | src/app/components/navbar.tsx:58-59 | at most one tab is marked active |
| `Navbar.NavBar.constructor` | src/app/components/navbar.tsx:7-10 | the bar shows the owner's active tab |
| `Navbar.NavBar.Sync` | src/app/components/navbar.tsx:29-34 | the effect leaves the synced tab, and reports a change exactly when the tab changed |
| `Navbar.NavBar.Click` | src/app/components/navbar.tsx:64 | clicking tab i makes it the only active tab |

## Left out

- Message ids and timestamps (`Date.now()`, `new Date()`) are opaque to every decision and are not represented. The timestamp line of a bubble is not modelled either.
- The typing delay is not modelled as time. Each deferred reply is an explicit `Complete` transition. Every timer has the same delay, so the pending replies are taken as firing in the order they were scheduled.
- `Text.Lower`: lower-cases ASCII letters only. `toLowerCase` also folds non-ASCII letters, and full Unicode case mapping is not modelled.
- Strings are sequences of characters. UTF-16 surrogate pairs are not distinguished.
- `Palette.Update`: whether the owner passed a new items array is a parameter, because array identity is not part of a value model. The Dashboard page, the only page that renders a palette, builds the array afresh on each of its renders.
- The palette's `mode` and `searchBarRef` props carry no logic, and the overlay backdrop's click, which calls `onClose`, is presentation. None is modelled.
- The keydown listener's registration and removal are not modelled: `OnKey` does nothing while the palette is closed.
- The skills payload's record is a sequence of groups in entry order, which is the order `Object.entries` gives for these keys.
- The page wiring is not part of this model. This covers the Dashboard and chat pages, the `localStorage` hand-off, router navigation, and the Dashboard's "New Chat" button that empties the log. It is component glue and browser I/O.
- The contact card (clipboard access and timers) and the API route (an HTTP call to an outside model provider) are I/O and are not part of this model.
- Styling, theming, animation keyframes, the search box's `console.log` and the navbar's dark-theme DOM effect are presentation.
- The search box reads the submitted value from the form data, which holds the controlled value. The model reads `value` directly.

## Findings

| source | as written | input that shows it | evidently intended | confidence | as-written member | corrected member |
|---|---|---|---|---|---|---|
| src/app/components/about.tsx:10-20 | the highlight test strips every `.` from the piece and compares it with the list entries unchanged, so the entry `Next.js`, which contains a `.`, can never match | the piece `Next.js` (or `Next.js,`) cleans to `Nextjs` and is not highlighted | compare the cleaned piece with the cleaned entries, so `Next.js` is highlighted like the other listed words | high, not executed | `About.PiecesStartingWithNNotHighlighted` | `About.HighlightWordsAreHighlighted` |
