# Savitar AI chat page: attachment staging and quick replies

This project models the logic inside the event handlers of the Savitar AI chat
page (`savitar-ai/src/app/page.tsx`). That logic covers four things:

- how files are staged as attachments, by paste, by drag-and-drop or by the file picker;
- how a staged file is deleted;
- what a send does to the page state;
- how the three quick-reply suggestions are drawn from the pool of nine canned prompts.

The rendering is left out. Only the conditions that decide what the page shows are kept.

Modules:

- `Wrappers`: `Option`, which stands for the page's nullable values (`FileList | null`, an absent clipboard item list).
- `Intake`: pure functions. These are:
  - the MIME allow-list (`image/…`, `text/…`, `application/pdf`);
  - the filter and the screening verdict that the three intake paths share;
  - index deletion;
  - the 100-code-unit text preview and its ellipsis;
  - the PDF caption (`_` and `-` become spaces);
  - how each attachment kind is drawn;
  - the quick-reply and "Thinking..." visibility conditions.
- `QuickReplies`: the nine-prompt pool and `RandomQuickReplies`. That method copies an array, shuffles the copy in place with Fisher–Yates and returns its first three entries. It is proved to return the first `min(3, n)` entries of a permutation of its input. The lemmas then show that a draw from the pool gives three different pool prompts.
- `Page`: the class `ChatPage`. Its fields are the component state (`files`, `viewFiles`, `isDragging`, `quickReplies`) and the input text. Each handler is a method that updates those fields in the order the source does. This includes the double write at the end of `handleDrop`. A toast becomes the returned `Notice`:
  - `TooMany` is the count error;
  - `BadType` is the type error;
  - `Accepted` means the batch was staged;
  - `NoOp` means there was nothing to handle.

  Calls into the chat driver (`handleSubmit`, `append`) are recorded in the `submissions` and `appended` fields.
- `Scenarios`: short clients of `ChatPage`. Each runs one sequence of events, typical or one of the quirks below, and states its outcome as derived from the handlers' contracts.

Behaviour of the code as written that the model keeps, and that a reader might not expect:

- `handleDrop` stages the raw dropped batch whenever at most five of its files pass the allow-list. This holds even when the type error fires. So a drop can stage disallowed files, and more than five files in all (`Scenarios.DropImageAndArchive`, `Scenarios.DropFiveImagesAndArchive`).
- The count check counts only the allowed files. So six files with one disallowed among them draw the type error, not the count error (`Intake.CountCheckSeesOnlyAllowed`).
- The text preview shows "..." when the kept text has 100 UTF-16 code units. So a text of exactly 100 units gets an ellipsis although nothing was cut (`Intake.EllipsisIff`). Lengths are counted in code units, as JavaScript counts them, so a character outside the basic plane counts twice and the cut may split it.
- The "Thinking..." row looks only at the last message. In a transcript of user and assistant messages it shows exactly while the latest turn has no assistant reply. A data or system message after the reply brings it back (`Intake.ThinkingDespiteAnsweredTurn`).
- Deleting the last staged file clears the set and sets `viewFiles` to true. The panel then disappears because nothing is staged, not because it was hidden.
- An empty picker selection stages an empty, non-null set. That hides the quick replies, and the next send still sets `allowEmptySubmit` (`Scenarios.PickNothing`).
- Previews choose their kind by the prefixes `image` and `text`, with no slash. Every allowed type still gets a preview (`Intake.AllowedFilesArePreviewed`).

## Model

| member | source | states |
|---|---|---|
| `Intake.StartsWith` | savitar-ai/src/app/page.tsx:121 | `startsWith` holds exactly when the pattern is a prefix of the string |
| `Intake.AllowedTypeIff` | savitar-ai/src/app/page.tsx:119-122 | a type passes exactly when it starts with `image/` or `text/` or equals `application/pdf` |
| `Intake.AllowedTypeExamples` | savitar-ai/src/app/page.tsx:157-160 | `image/png`, `text/plain` and `application/pdf` pass; `application/zip`, `image`, `application/pdfx` and the empty type fail |
| `Intake.AllowedFiles` | savitar-ai/src/app/page.tsx:201-204 | the filtered batch is no longer than the batch and holds exactly the batch's allowed files |
| `Intake.AllowedFilesWhole` | savitar-ai/src/app/page.tsx:129-132 | the test `validFiles.length === files.length` holds exactly when every file is allowed, and then the filtered batch is the batch itself, in order |
| `Intake.AllowedFilesAppend` | savitar-ai/src/app/page.tsx:119-122 | filtering a concatenation gives the concatenation of the filtered parts, so the filter keeps the batch's order |
| `Intake.AllowedFilesSingle` | savitar-ai/src/app/page.tsx:157-160 | a single file is kept exactly when it is allowed |
| `Intake.AllowedFilesCount` | savitar-ai/src/app/page.tsx:201-206 | the filtered batch holds each allowed file as often as the batch does and no other file, which fixes the number the count check tests |
| `Intake.AllowedFilesKeepsAll` | savitar-ai/src/app/page.tsx:167-170 | when every dropped file is allowed, the filtered batch is the dropped batch itself, in order |
| `Intake.AllowedFilesDropsOne` | savitar-ai/src/app/page.tsx:211-217 | when some selected file is not allowed, the filtered batch is strictly shorter, so the type error fires |
| `Intake.ScreenAcceptsIff` | savitar-ai/src/app/page.tsx:124-136 | a batch is staged exactly when it has at most five files and all are allowed; the count error implies more than five files |
| `Intake.CountCheckSeesOnlyAllowed` | savitar-ai/src/app/page.tsx:206-219 | a batch of at most six files with a disallowed one draws the type error, never the count error |
| `Intake.PastedFiles` | savitar-ai/src/app/page.tsx:114-118 | the paste batch is no longer than the item list, and it is empty exactly when no item is a file |
| `Intake.PastedFilesAppend` | savitar-ai/src/app/page.tsx:114-116 | the batch of a concatenation of item lists is the concatenation of their batches, so the clipboard's order is kept |
| `Intake.PastedFilesSingle` | savitar-ai/src/app/page.tsx:115-116 | one item gives its file, or nothing when `getAsFile` returns null |
| `Intake.PastedFilesCount` | savitar-ai/src/app/page.tsx:114-118 | each file is in the batch as often as it is among the clipboard items |
| `Intake.PastedFilesMembers` | savitar-ai/src/app/page.tsx:116 | a file is in the batch exactly when it is among the clipboard items |
| `Intake.RemoveAt` | savitar-ai/src/app/page.tsx:95 | filtering out index `i` gives the list without its `i`-th element; an index outside the list leaves it whole |
| `Intake.RemoveAtShape` | savitar-ai/src/app/page.tsx:93-106 | deleting a valid index leaves `n-1` files, the others in their original order, and nothing exactly when one file was staged |
| `Intake.PreviewContent` | savitar-ai/src/app/page.tsx:26 | the preview text is a prefix of the file text, of length `min(100, n)` in UTF-16 code units, and empty when the reader gives no string |
| `Intake.EllipsisIff` | savitar-ai/src/app/page.tsx:26-34 | the ellipsis shows exactly when the file text has at least 100 code units, so also at exactly 100 |
| `Intake.ReplaceChar` | savitar-ai/src/app/page.tsx:507 | `replaceAll` of one character keeps the length and changes exactly the matching positions |
| `Intake.PdfLabelSpec` | savitar-ai/src/app/page.tsx:507 | the PDF caption has the name's length, spaces where the name has `_` or `-`, no `_` or `-` left, and the other characters unchanged |
| `Intake.AllowedFilesArePreviewed` | savitar-ai/src/app/page.tsx:455-511 | every allowed type gets a preview: `image/` types as images, `text/` types as text and the PDF type as a PDF |
| `Intake.LatestTurn` | savitar-ai/src/app/page.tsx:422-423 | the latest turn is a suffix of the transcript ending with its last message; when there is a user message it starts at the last one and holds no other |
| `Intake.ThinkingWhileTurnUnanswered` | savitar-ai/src/app/page.tsx:422-423 | in a transcript of user and assistant messages, "Thinking..." shows while loading exactly when the latest turn has no assistant reply yet |
| `Intake.ThinkingDespiteAnsweredTurn` | savitar-ai/src/app/page.tsx:423 | after `[user, assistant, data]` "Thinking..." shows although the latest turn is answered |
| `QuickReplies.RandomQuickReplies` | savitar-ai/src/app/page.tsx:51-61 | the shuffle works on a copy (the input array is not modified); the result has `min(3, n)` entries, is a sub-multiset of the input, and is a prefix of a permutation of the input |
| `QuickReplies.PoolDistinct` | savitar-ai/src/app/page.tsx:39-49 | the pool has nine pairwise different prompts |
| `QuickReplies.DrawFromDistinctPool` | savitar-ai/src/app/page.tsx:59-60 | entries taken from a duplicate-free pool without replacement are distinct members of the pool |
| `QuickReplies.DrawFromPool` | savitar-ai/src/app/page.tsx:66-69 | a three-entry draw from the page's pool is three different pool prompts |
| `Page.ChatPage.Resample` | savitar-ai/src/app/page.tsx:90 | a new draw leaves three different pool prompts on offer |
| `Page.ChatPage.constructor` | savitar-ai/src/app/page.tsx:64-82 | the page starts with nothing staged, the panel expanded, no drag, an empty input and a first draw of suggestions |
| `Page.ChatPage.HandleInputChange` | savitar-ai/src/app/page.tsx:542 | the input holds the typed text |
| `Page.ChatPage.HandlePaste` | savitar-ai/src/app/page.tsx:110-140 | no items, or no file among them, changes nothing; otherwise the verdict is the screening of the batch, and only an accepted batch is staged, exactly and in order, with the panel expanded; on either error the state is unchanged |
| `Page.ChatPage.HandleDragOver` | savitar-ai/src/app/page.tsx:142-145 | a drag over the page sets the highlight |
| `Page.ChatPage.HandleDragLeave` | savitar-ai/src/app/page.tsx:147-150 | leaving clears the highlight |
| `Page.ChatPage.HandleDrop` | savitar-ai/src/app/page.tsx:152-180 | the highlight always ends; an empty drop changes nothing else; on the count error the staged set is unchanged; otherwise the staged set is the whole dropped batch, even when the type error fires |
| `Page.ChatPage.HandleFileChange` | savitar-ai/src/app/page.tsx:198-221 | no selection changes nothing; otherwise the verdict is the screening of the selection, an accepted selection is staged exactly with the panel expanded, and on either error the state is unchanged |
| `Page.ChatPage.ToggleViewFiles` | savitar-ai/src/app/page.tsx:552 | the View/Hide control flips the panel |
| `Page.ChatPage.HandleFileDelete` | savitar-ai/src/app/page.tsx:93-108 | with nothing staged nothing changes; otherwise the staged set loses the file at the index, and if none is left it is cleared and the panel is set to expanded |
| `Page.ChatPage.OnSubmit` | savitar-ai/src/app/page.tsx:440-448 | the driver receives the input and exactly the staged files, with `allowEmptySubmit` true exactly when files were staged; afterwards nothing is staged, three different pool prompts are on offer, and they show exactly when the input is empty |
| `Page.ChatPage.HandleAppend` | savitar-ai/src/app/page.tsx:84-91 | the suggestion is sent as a user message and a new draw of three different pool prompts is on offer |
| `Scenarios.DropSixImages` | savitar-ai/src/app/page.tsx:162-164 | dropping six images draws the count error and stages nothing |
| `Scenarios.PasteImageAndExecutable` | savitar-ai/src/app/page.tsx:118-136 | pasting an image and an executable draws the type error and stages neither |
| `Scenarios.DropImageAndArchive` | savitar-ai/src/app/page.tsx:166-177 | dropping an image and an archive draws the type error, yet stages both |
| `Scenarios.DropFiveImagesAndArchive` | savitar-ai/src/app/page.tsx:157-176 | five images and an archive dropped together stage all six files behind the type error |
| `Scenarios.SendWithTwoFiles` | savitar-ai/src/app/page.tsx:441-447 | sending with two staged files hands both to the driver with `allowEmptySubmit` set and clears the staged set |
| `Scenarios.DeleteAll` | savitar-ai/src/app/page.tsx:453 | deleting both staged files one by one clears the set, expands the panel, and the panel does not show |
| `Scenarios.PickNothing` | savitar-ai/src/app/page.tsx:584 | an empty picker selection is staged as an empty set, which hides the quick replies and makes the next send set `allowEmptySubmit` |

## Left out

- Rendering: JSX layout, CSS, animations, the header and the static sidebars. Only the visibility conditions are modelled.
- The chat driver (`useChat`): the message list, streaming, the rate-limit error toast, and what `handleSubmit` and `append` do with what they receive. The page's calls into it are recorded, and that is all. In particular the model does not clear the input after a send, because the driver does that, not the page.
- Toast texts: the notices stand for the messages. The paste path's type message has no "!" and the other two paths' messages do. The model does not distinguish them.
- Browser APIs: `FileReader`, `DataTransfer`, `URL.createObjectURL` and `scrollIntoView`. A staged `FileList` is a sequence of files. The text reader's result is a parameter.
- The 200 ms `setTimeout` in `handleFileDelete`: the update is immediate, so deletes that overlap in time are not modelled.
- `getTextFromDataUrl`: base64 decoding through `window.atob`, a browser call.
- QuickReplies.RandomQuickReplies: `Math.random` becomes an arbitrary swap partner in `[0, i]`, chosen in the loop body. The contract does not mention the swap partners and says nothing about the distribution, so uniformity is not modelled.
- Intake.ThinkingVisible: requires a message whenever a reply is loading. At line 423 the page reads the last message's role, which throws when loading with no messages. The model does not model that crash, because the chat driver adds the user's message before it starts loading.
- File names and MIME types are Dafny strings of Unicode characters, not UTF-16 code units. The model only compares them with ASCII patterns (`image/`, `text/`, `application/pdf`, `_`, `-`), where the two counts agree.
- `handleUploadClick`: it only opens the browser's file dialog.
