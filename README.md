# OLG Hamm page watcher — verified model

The watcher is one Python script, `listener.py`. Every check interval it fetches one web page. It hashes the whole page and one section of it: the siblings that follow the `h5` header "Kurzfristig zu besetzende Ausbildungsplätze:". It compares both digests with the ones from the previous check. It sends a "structure changed" notice and/or an "update" notice through Telegram and Brevo mail. Then it saves the two digests to a two-line state file.

This project models the decision logic of that loop in Dafny and proves its properties:

- `Text` models the Python string operations the script uses: `str.strip`, `str.split(",")`, `"\n".join`, `str.splitlines` and `startswith`.
- `Hashing` models `get_hash`. The SHA-256 function is a parameter `H: string -> string`, and an absent text hashes as `""`.
- `HashStore` models `save_hashes` and `load_hashes` on the text of the state file, with a missing or unreadable file as separate cases.
- `Extraction` models `extract_training_section`. A parsed page is reduced to a "header found" flag and the list of `(tag name, markup)` siblings after the header. `ExtractSection` is the loop. `Section` is its specification.
- `Notifier` models `send_telegram`, `send_mail` and `notify`, plus the list of channels logged at start-up. Each POST is reduced to the request it would send and whether it succeeded. That success is an input.
- `Watcher` models the body of `main`'s `while True` loop:
  - `Step` is one cycle as a function, and `Run` is a finite sequence of cycles.
  - The class `Monitor` holds the variables the loop reassigns: `last_full_hash` and `last_section_hash`. It also holds the state file and a trace of the events so far, which are the notices sent and the saves.
  - `Monitor.Cycle` and `Monitor.RunCycles` are proved equal to `Step` and `Run`.

The model follows the code literally in these points:

- The section scan stops at any sibling whose tag name starts with "h". That includes `hr`, `header` and `html`, not only `h1`–`h6`.
- `notify` returns nothing. It only logs a warning when neither channel sent the message.
- `save_hashes` is not atomic. If `makedirs` or `open` raises, the old file stays as it was. Once `open` has truncated the file, a write or the flush on closing that raises leaves a prefix, possibly empty, of the new text. `SaveFailed` says which of the two happened, and for the second how many characters reached the file. After a restart, such a prefix can load as the whole new page digest together with a truncated section digest; the page digest itself is never wrong.

## Model

| member | source | states |
|---|---|---|
| `Text.TrimStart` | listener.py:118 | the left-stripped text is the suffix left after removing only whitespace, and it does not start with whitespace |
| `Text.TrimEnd` | listener.py:118 | the right-stripped text is the prefix left after removing only whitespace, and it does not end with whitespace |
| `Text.Strip` | listener.py:118 | `strip()` yields a contiguous piece of the input with only whitespace around it, and the piece neither starts nor ends with whitespace |
| `Text.StripEmptyIffAllSpace` | listener.py:118-119 | stripping yields `""` exactly when the input is all whitespace |
| `Text.StripKeepsOut` | listener.py:58 | stripping never introduces a character, so a stripped recipient has no comma |
| `Text.Split` | listener.py:58 | `split(",")` gives at least one piece, and no piece contains the separator |
| `Text.JoinSplit` | listener.py:58 | joining the pieces of a split with the separator gives the input back |
| `Text.SplitJoin` | listener.py:58 | splitting a join of separator-free pieces gives the pieces back |
| `Text.Join` | listener.py:118 | defines `sep.join(parts)`: the parts with `sep` between neighbours; `JoinSplit` and `SplitJoin` are its partners |
| `Text.SplitCount` | listener.py:58 | there is one piece more than there are separators |
| `Text.SplitLines` | listener.py:132 | `splitlines()` gives lines without line boundaries, no lines exactly for the empty text, and a non-empty line-free text as its single line; with `SplitLinesAfterBreak` this fixes every result |
| `Text.SplitLinesAfterBreak` | listener.py:132 | a line-free head followed by any line boundary is the first line, and the rest splits on its own; after `"\r"` a following `"\n"` is part of the same boundary |
| `Text.SplitLinesOfTerminated` | listener.py:132 | `splitlines()` of any line-free lines each followed by `"\n"` gives back exactly those lines |
| `Text.SplitLinesAfterLine` | listener.py:132 | a line-free text followed by `"\n"` is the first line, and the rest splits on its own |
| `Text.FirstLine` | listener.py:132 | the first line of a text with a boundary is what precedes its first boundary |
| `Hashing.GetHash` | listener.py:122-123 | an absent text is hashed as `""`, and a present one as itself |
| `Hashing.AbsentHashesAsEmpty` | listener.py:123 | an absent section and an empty one have the same digest |
| `Hashing.HexDigestIsLineFree` | listener.py:123 | a 64-character lower-case hex digest contains no line boundary |
| `HashStore.Save` | listener.py:141-145 | the file text is each digest followed by `"\n"`, as a file of two lines is written |
| `HashStore.Written` | listener.py:143-145 | the text that reached the file is a prefix of the new text: `kept` characters, or all of it |
| `HashStore.AfterFailedSave` | listener.py:141-145 | a save that raised before `open` leaves the old file; one that raised while writing leaves a prefix of the new text |
| `HashStore.TruncatedSaveLoad` | listener.py:126-145 | if a prefix of the saved text loads as two lines, the first is the whole page digest and the second a prefix of the section digest |
| `HashStore.Load` | listener.py:126-138 | a missing or unreadable file, or content whose line count is not 2, loads as `(None, None)`; otherwise the first and second line of `splitlines()`, which are line-free; the two digests are always both present or both absent |
| `HashStore.SavedLines` | listener.py:141-145 | the saved text of two line-free digests splits into exactly those two lines |
| `HashStore.SavedLinesTruncated` | listener.py:132-145 | if a digest has a line boundary, the saved text does not split back into it: either the count is not 2 or a line is shorter than its digest |
| `HashStore.SaveLoadRoundTrip` | listener.py:126-145 | loading what `save_hashes` wrote returns both digests exactly when neither contains a line boundary |
| `Extraction.IsHeading` | listener.py:114 | defines the stop test: the tag name is non-empty and starts with `"h"` |
| `Extraction.BeforeHeading` | listener.py:113-116 | the collected siblings are a heading-free prefix of the siblings, followed by a heading-like sibling or by the end |
| `Extraction.Section` | listener.py:105-119 | the section is never `""`; it is absent exactly when the header is missing or the newline-joined markup is all whitespace |
| `Extraction.BeforeHeadingIgnoresTail` | listener.py:113-115 | a heading at any position cuts off everything after it from the collected siblings |
| `Extraction.SectionIgnoresTail` | listener.py:113-119 | the stopping sibling and everything after it never change the section |
| `Extraction.SectionStopsAtNextHeading` | listener.py:112-119 | header, then `<p>A</p>`, then an `h6`: the section is `<p>A</p>` only |
| `Extraction.SectionStopsAtRule` | listener.py:114-115 | an `hr` right after the header stops the scan, so the section is absent |
| `Extraction.ExtractSection` | listener.py:105-119 | the `for`/`break` scan with `append` returns exactly `Section` of the page |
| `Notifier.Truthy` | listener.py:36 | defines Python truthiness of a setting: set and non-empty |
| `Notifier.TelegramConfigured` | listener.py:36 | defines the Telegram condition: token and chat id both truthy |
| `Notifier.MailConfigured` | listener.py:54 | defines the mail condition: API key, sender and `MAIL_TO` all truthy |
| `Notifier.TelegramMessage` | listener.py:89 | defines the Telegram text: `<b>`, the subject, `</b>`, a blank line, the body |
| `Notifier.TelegramMessageInjective` | listener.py:89 | when the subject has no `<`, the Telegram text `<b>subject</b>\n\nbody` determines subject and body |
| `Notifier.SendTelegram` | listener.py:35-50 | skipped exactly when token or chat id is unset or empty; otherwise one POST to the `sendMessage` URL of the configured bot token, of the message with `parse_mode` HTML to the configured chat; returns true exactly when configured and the POST succeeded |
| `Notifier.Recipients` | listener.py:58 | recipient k is the k-th comma-separated piece of `MAIL_TO` with its whitespace stripped; there is one more recipient than commas, each comma-free and with no whitespace at either end |
| `Notifier.RecipientsOfList` | listener.py:58 | comma-free pieces joined by commas yield each piece stripped, in order |
| `Notifier.SendMail` | listener.py:53-85 | skipped exactly when API key, sender or recipient list is unset or empty; otherwise one POST to the Brevo endpoint with the API key, the sender, the recipients of `MAIL_TO`, the subject and body unchanged; returns true exactly when configured and the POST succeeded |
| `Notifier.Notify` | listener.py:88-93 | Telegram gets the bold subject and body, mail gets subject and body, both are always tried, and the warning is logged exactly when neither sent |
| `Notifier.NotifyTriesBoth` | listener.py:88-90 | each channel is attempted exactly when it is configured, and the mail request does not depend on the Telegram outcome |
| `Notifier.WarnedIffNothingSent` | listener.py:92-93 | the warning is logged exactly when each channel is unconfigured or its POST failed |
| `Notifier.ConfiguredChannels` | listener.py:155-164 | the start-up list names Telegram exactly when Telegram is configured, and E-Mail exactly when mail is configured, Telegram first when both are |
| `Notifier.NoChannelsAlwaysWarns` | listener.py:155-164 | when the start-up "no channels" warning is logged, every `notify` skips both channels and logs its warning |
| `Watcher.Start` | listener.py:166 | start-up remembers what the state file loads as, with no events yet; the digests are paired and mirror the file |
| `Watcher.UpdateBody` | listener.py:190-193 | the update body starts with the preamble and always has something after it |
| `Watcher.StructureNotices` | listener.py:181-186 | one "structure changed" notice exactly when the page digest differs from the remembered one, none otherwise |
| `Watcher.UpdateNotices` | listener.py:188-194 | one "update" notice with the update body exactly when the section digest differs from the remembered one, none otherwise |
| `Watcher.Compare` | listener.py:176-194 | no notice in baseline, at most two otherwise |
| `Watcher.Step` | listener.py:169-204 | one cycle only appends to the trace, never rewriting earlier events |
| `Watcher.Run` | listener.py:168-207 | a run of cycles only appends to the trace |
| `Watcher.HexDigestsAreLineFree` | listener.py:123 | a hasher that returns hex digests never puts a line boundary in a digest |
| `Watcher.BaselineIsSilent` | listener.py:176-179 | with no prior digests a cycle sends no notice; a save that returns makes the page's digests the remembered ones |
| `Watcher.StructureNoticeIff` | listener.py:181-186 | in steady state the "structure changed" notice is sent exactly when the page digest differs from the remembered one |
| `Watcher.UpdateNoticeIff` | listener.py:188-194 | in steady state the "update" notice is sent exactly when the section digest differs from the remembered one, and its body embeds the current section |
| `Watcher.StructureNoticeFirst` | listener.py:181-194 | when both digests changed, both notices are sent in one cycle, the structure notice first |
| `Watcher.UpdateBodyShowsSection` | listener.py:190-193 | the update body is the preamble followed by the section text, or by `[leer]`; two sections give the same body only if equal, or if one is absent and the other is the text `[leer]` |
| `Watcher.FailedFetchChangesNothing` | listener.py:171 | a failed fetch changes no state and sends nothing |
| `Watcher.FailedSaveKeepsDigests` | listener.py:198-204 | a save that raises leaves the remembered digests unchanged and the file as `AfterFailedSave` says; the cycle's notices have been sent anyway |
| `Watcher.FailedSaveRestart` | listener.py:126-145 | a restart after a save that raised before `open` resumes from the old file; after one cut short while writing it resumes as a first run or with the page's own digest and a prefix of the section digest |
| `Watcher.NoticesBeforeSave` | listener.py:181-199 | within a cycle every notice comes before the save attempt, which comes last and once |
| `Watcher.RememberedPageIsSilent` | listener.py:181-199 | fetching the page whose digests are remembered sends nothing, and the save rewrites the same text |
| `Watcher.SamePageTwiceIsSilent` | listener.py:166-199 | after a cycle whose save returned, the same page again sends nothing, and the state file and remembered digests stay the same |
| `Watcher.StepKeepsPaired` | listener.py:166-199 | a cycle keeps both remembered digests present or both absent |
| `Watcher.StepKeepsMirrored` | listener.py:198-199 | after a cycle whose save returned, loading the state file gives the remembered digests |
| `Watcher.RestartResumes` | listener.py:166-199 | a restart after a cycle whose save returned resumes with the same digests, so the same page again sends nothing |
| `Watcher.RunAppend` | listener.py:168-207 | running one more cycle is one more `Step` |
| `Watcher.RunKeepsPaired` | listener.py:168-199 | any number of cycles keeps both digests present or both absent |
| `Watcher.SilentStep` | listener.py:169-199 | a cycle on the remembered page, or one whose fetch fails, adds no notice and keeps the page remembered |
| `Watcher.SteadyPageRunIsSilent` | listener.py:168-199 | while every fetch yields the same remembered page or fails, no notice is ever sent |
| `Watcher.Monitor.constructor` | listener.py:166 | start-up loads the state file once; the digests are paired and mirror the file |
| `Watcher.Monitor.Send` | listener.py:183-194 | a `notify` call appends its notice to the trace |
| `Watcher.Monitor.AnnounceStructure` | listener.py:181-186 | the page comparison appends the structure notice exactly when the page digest changed |
| `Watcher.Monitor.AnnounceUpdate` | listener.py:188-196 | the section comparison appends the update notice exactly when the section digest changed |
| `Watcher.Monitor.Announce` | listener.py:176-196 | the comparison step appends nothing in baseline, otherwise the structure check's notices then the update check's |
| `Watcher.Monitor.Cycle` | listener.py:169-204 | one loop iteration leaves the variables, state file and trace exactly as `Step` says |
| `Watcher.Monitor.RunCycles` | listener.py:168-207 | a finite run of iterations leaves the state exactly as `Run` says |

## Left out

- HTTP requests (listener.py:40-50, 73-85, 96-102) are network I/O. A fetch is either a page or a failure. A POST is the request payload plus a success flag. Headers, timeouts, JSON encoding and status codes are not modelled.
- BeautifulSoup parsing and the `soup.find("h5", string=...)` header search (listener.py:106-107) are a foreign library. The parsed page is given as the "header found" flag and the element siblings after the header. `find_next_siblings()` yields tags only, so a sibling's name is always a string.
- SHA-256 and the UTF-8 encoding before it (listener.py:123) are foreign calls. The hasher is a parameter, and it is deterministic. The property that digests are line-free is assumed explicitly where it is needed.
- File-system effects (listener.py:127, 131, 142-145) are reduced to what a read yields: missing, unreadable, or some text.
- HashStore.Written: a failed write is cut after whole characters, not bytes. The digests are ASCII hex, where the two agree; a cut inside a multi-byte character, which would make the next read fail, is not modelled.
- The endless `while True`, `time.sleep` and logging (listener.py:168, 206-207) are scheduling and side output. Finite runs of cycles are modelled. The only logging modelled is the "no notification could be sent" warning and the start-up channel list.
- Reading the environment and `.env` (listener.py:15-32) is configuration I/O. The channel settings are a `Config` value, and `CHECK_INTERVAL` and `HASH_FILE` are not modelled.
- Exceptions other than a failed fetch and a failed save are not modelled: nothing else in a cycle raises in the model. An unexpected error in parsing would behave like a failed fetch, because nothing has happened yet at that point.
- Python strings are sequences of code points. Dafny strings here are sequences of Unicode scalar values, so lone surrogates are not represented.
