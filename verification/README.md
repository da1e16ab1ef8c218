# Session and protocol model

A Dafny model of the stateful core of a Claude agent SDK written in Rust, with
proofs of what that core promises. `dafny verify dfyconfig.toml` checks the
whole project.

**Transcripts and forks.** A session transcript is a list of JSON entries whose
`parentUuid` fields form a graph that may branch and may have cycles. `Chain`
turns it into one conversation, and specifies that conversation without
reference to the loops that find it. `Fork` renames every uuid, contracts
progress entries, drops sidechains and cuts at a message; `ForkTheorems`,
`ForkReadBack`, `DiskFork` and `StoreFork` prove that a reader of the fork sees
the source, renamed. `ForkClimb` says exactly when the contraction ends,
`ForkAtMeta` exactly when a fork that ends in a meta message reads back, and
`ForkExactly` exactly when a fork's chain is its source's. A transcript is
well-named when its uuids are distinct where present, parents stand before their
children, and no uuid is empty where an entry lacks one (the fork takes a missing
uuid for an empty one); it is well-ordered when, besides, no entry without a uuid
has a parent in it. Where every entry carries a uuid, as the file reader ensures,
distinct uuids and parents first are enough (`Transcript.AllNamedIsWellOrdered`).

What a caller reads out of a chain is `SessionReading`: which entries are shown
and what of them, and that a session without branches reads in full.

**The session store.** `SessionStore` is the in-memory store as a class with a
ghost history; `StoreTheorems` relates it, after any history and with any clock,
to the transcripts that history leaves. `Summary` is the incremental fold and
the line scanner, `Prompts` says which user text becomes the first prompt, and
`Listing` holds the two ways of listing sessions.

**The control protocol.** `QueryState` is a state machine over the steps of
callers, the one driver task, handler tasks and the consumer; every
interleaving is a sequence of its events, and what the process will print is a
fixed but arbitrary stream. Leaving the driver's loop and returning are separate
events: while the transport closes, commands are still accepted and never taken.
`QueryActor` holds the objects themselves: each method is one uninterrupted step
and is proved equal to the machine's step.
`QueryCalls`, `QueryRequests`, `QueryWire`, `QueryHandlers` and `QueryMessages`
prove safety over all runs. `Framing` cuts the process's bytes into that stream,
`Session` joins the two, and `Client` splits the consumer's messages into
responses.

**Arithmetic.** `Calendar`, `Decimal` and `Iso8601` are the date conversions,
the timestamp printer and the parser (the date-time production of section 5.6
of RFC 3339), `Timestamps` the written forms and the printed columns; `Paths` is
the rolling hash and the project key.

Where the code decides by the name of a JSON field, by a string or by a
character, the contracts name that field, string or character themselves:
`SessionReading` for entries and messages, `Prompts` for user texts, the
reference part of `Protocol` for incoming values, `Framing.LineRead` for printed
lines, `Listing.ListSessionsViaSummaries` for the comparison of write times.

Where the code falls short of a natural reading of its promise, the code is
followed, the exact condition is proved, and a concrete input shows the failure:

- the climb past progress entries: `ForkClimb.ClimbEndsExactly`,
  `ForkClimb.SelfParentNeverEnds`;
- forks below a sidechain: `ForkReadBack.ForkAtMessage`,
  `ForkExactly.SidechainsCanCost`;
- forks at a meta message: `ForkAtMeta.ForkReadsBackExactly`,
  `ForkAtMeta.MetaCanStray`;
- full forks and the source's own chain: `ForkExactly.ForkTellsTheSame`,
  `ForkExactly.ForkShowsTheSame`, `ForkExactly.TeamMessageStrays`,
  `ForkExactly.TeamReplyShows`, `ForkExactly.UnnamedProgressStrays`;
- keys with slashes in them: `StorageKeys.KeyRoundTripExactly`,
  `StorageKeys.ClashesExactly`, `StorageKeys.SlashesCollide`;
- the page that is cut twice when every session is loaded, before and after
  sessions without information drop out: `Listing.PathsAgree`,
  `Listing.PathsAgreeWhenAllHaveInfo`, `Listing.OffsetCutTwice`,
  `Listing.LimitCutFirst`;
- times before year 0: `Iso8601.FormatRoundTrip`, `Iso8601.YearZeroStarts`,
  `Iso8601.BeforeYearZero`;
- calls that outlive the driver: `QueryCalls.AfterStopOnlyTimeouts`,
  `QueryCalls.UnansweredWaits`;
- cancelling an id that was reused: `QueryHandlers.CancelStopsTheLatest`,
  `QueryHandlers.CancelMissesTheFirst`.

The time of a single session's information is zero for every session
(`Listing.SingleInfoLacksTime`).

## Model

| member | source | states |
|---|---|---|
| Chain.BuildConversationChain | src/session_management/store.rs:777-863 | for every entry list, cycles included, it returns the chain of the one path that meets `IsConversationPath`: empty exactly when no terminal entry reaches a user or assistant entry, else the ancestors of the leaf, the leaf being the latest main candidate when there is one and the latest candidate otherwise |
| Chain.ConversationPathUnique | src/session_management/store.rs:834-863 | at most one path meets that specification, so it fixes the result entry by entry |
| ParentGraph.AncestorPathShape | src/session_management/store.rs:843-858 | a chain repeats no entry, each entry is the parent of the next, and the head has no parent, an unknown one, or one already in the chain |
| Chain.WalkToMessage | src/session_management/store.rs:805-822 | the walk finds the nearest user or assistant entry at or above its start, and gives up exactly when there is none, because the parents run out or go round in a cycle |
| Chain.Candidates | src/session_management/store.rs:789-824 | the candidates are exactly the nearest messages of the entries no entry names as parent |
| Chain.ClimbFrom | src/session_management/store.rs:843-858 | the climb ends on every parent graph, in the chronological order of a climb that stops only at a missing parent or a repeat |
| Chain.BuildSubagentChain | src/session_management/store.rs:869-911 | the chain of the last user or assistant entry in file order; empty exactly when there is none |
| SessionReading.MessagesOfChain | src/session_management/store.rs:745-767 | the messages read from a chain are those of its entries of type user or assistant that carry a uuid and are neither sidechain, meta nor team entries, in order, each with that entry's type, uuid and content (null without any) |
| SessionReading.LastReplyEnds | src/session_management/store.rs:783-838 | whatever the transcript, a last entry that is shown and that no entry names as its parent ends the conversation |
| SessionReading.LastReplyIsRead | src/session_management/store.rs:745-838 | and its message is the last one read |
| SessionReading.LinearSessionReads | src/session_management/store.rs:777-863 | a session in which every entry names the one before it as its parent, and whose last entry is shown, reads in full |
| SessionReading.SubagentEndsAtLastSpeaker | src/session_management/store.rs:869-911 | a subagent's chain ends at the last entry of type user or assistant, flagged or not, and is empty exactly when there is none |
| Fork.SkipProgress | src/session_management/disk.rs:855-871 | the parent found is the first ancestor name that is not a progress entry, whenever the climb ends at all |
| ForkClimb.ClimbEndsExactly | src/session_management/disk.rs:864-871 | the climb, which keeps no record of where it has been, ends exactly when it does not come back to a progress entry it has passed, and then within as many steps as there are entries |
| ForkClimb.SelfParentNeverEnds | src/session_management/disk.rs:864-871 | a two-entry transcript, forked whole, with a progress entry that is its own parent: the climb of the other entry never ends |
| Fork.UuidMapping | src/session_management/disk.rs:765-769 | looking a uuid up in the mapping gives the name drawn for the last entry that carries it, and nothing for a uuid no entry carries |
| Fork.RewriteEntry | src/session_management/disk.rs:843-905 | every field of the rewritten entry: the new links, the session stamp, the source session and entry it names as its origin, the time on the last entry only, the four dropped fields, and every other field untouched |
| Fork.RemapForkEntry | src/session_management/disk.rs:826-905 | the entry under its new uuid, linked to the new name of its nearest ancestor that is not a progress entry (null when that is outside the fork) |
| Fork.BuildForkLines | src/session_management/disk.rs:734-817 | the three failures, and otherwise one remapped line per entry off the sidechains and not progress up to the cut, in order, then the title entry |
| Fork.TitleExactly | src/session_management/disk.rs:799-807 | the fork's title: the given one without the white space around it unless it is blank, else the derived one or the stock phrase, marked as a fork |
| Fork.TitleEntryFields | src/session_management/disk.rs:808-814 | the title entry has exactly these five fields, with these values |
| ForkTheorems.ClimbsEndWhenOrdered | src/session_management/disk.rs:864-871 | with uuids that are distinct where present and parents before children every climb ends |
| ForkTheorems.ForkParent | src/session_management/disk.rs:855-876 | the parent relation among forked lines is the relation "nearest ancestor that is not progress" among the source entries |
| ForkTheorems.ForkAncestors | src/session_management/disk.rs:855-876 | climbing the fork visits exactly the source ancestors that are not progress entries, in order |
| ForkTheorems.ForkPath | src/session_management/disk.rs:765-817 | whatever the leaf of the fork, the path read from the forked lines leads through exactly the ancestors of the entry the leaf was made from, progress entries dropped |
| ForkTheorems.ForkWithoutMessages | src/session_management/disk.rs:771-799 | a transcript without user or assistant entries forks to lines without a conversation |
| ForkReadBack.ForkReadsBack | src/session_management/disk.rs:734-905 | for a well-ordered transcript and a last message that is not meta, wherever the fork is cut: reading the fork back gives the last forked message and its ancestors back to the nearest sidechain, progress entries dropped, uuids renamed, same order, content and links |
| ForkAtMeta.ForkReadsBackExactly | src/session_management/disk.rs:734-905 | for a well-ordered transcript, without the restriction on meta: reading the fork back gives its last message's story exactly when that message is not meta, or no branch of the forked entries ends in a message that is not meta |
| ForkAtMeta.MetaCanStray | src/session_management/store.rs:826-838 | a two-entry transcript that, forked at its meta message, reads back as something else |
| ForkTheorems.LeafIsLastMessage | src/session_management/store.rs:826-838 | in a well-ordered transcript the leaf is the last message exactly when that one is on the main chain or no candidate is |
| ForkReadBack.ForkAndRead | src/session_management/disk.rs:734-905 | for every well-ordered transcript, forking at a user or assistant entry that is neither sidechain nor meta and reading the result yields that entry's story |
| ForkReadBack.ForkAtMessage | src/session_management/disk.rs:734-905 | in a well-ordered transcript, forking at a user or assistant entry that is neither sidechain nor meta always succeeds, the climb always ends, and reading back retells that entry's main story; this is its whole chain without progress entries exactly when every ancestor at or above a sidechain entry is a progress entry, so in particular when no ancestor is on a sidechain |
| ForkReadBack.MainStoryIsWhole | src/session_management/disk.rs:742-746 | dropping sidechains costs a reader nothing of an entry's chain exactly when every ancestor at or above a sidechain entry is a progress entry |
| ForkExactly.SidechainsCanCost | src/session_management/disk.rs:742-746 | two transcripts with a message below a sidechain entry: below a sidechain message the fork loses an ancestor, below a sidechain progress entry it loses nothing a reader gets |
| ForkExactly.ForkLeaf | src/session_management/store.rs:826-838 | which forked entry the fork's leaf is made from, read off what is forked: the latest message that ends a branch and is not meta, else the latest that ends a branch |
| ForkExactly.ForkTellsTheSame | src/session_management/disk.rs:734-817 | for every well-named transcript, whatever its entries without a uuid hang from and wherever the fork is cut: the chain of the fork is the renamed source chain without progress entries exactly when both are empty, or both end in the same entry and every source entry at or above a sidechain entry is a progress entry |
| ForkExactly.EmptyTellsEmpty | src/session_management/store.rs:789-838 | in a well-ordered transcript without a conversation no branch of the forked entries ends in a message, so the fork has no conversation either |
| ForkExactly.UnnamedProgressStrays | src/session_management/store.rs:777-838 | a message and below it a progress entry without a uuid: the source has no conversation, since nothing ends a branch of it, but its full fork has one |
| ForkExactly.ForkShowsTheSame | src/session_management/store.rs:745-766 | where those chains agree, the visible messages agree exactly when the source hides no message that its copy shows, since the fork strips the team mark |
| ForkExactly.TeamMessageStrays | src/session_management/disk.rs:892-905 | two roots, the later one a team message: the source's conversation ends in the first, and the full fork does not retell it |
| ForkExactly.TeamReplyShows | src/session_management/disk.rs:892-905 | a message and a team reply to it: the chains of source and fork agree, but a reader of the source gets the message alone and a reader of the fork gets the reply as well, under its new name |
| ForkReadBack.MainAncestorsAreAll | src/session_management/disk.rs:742-746 | no ancestor at all, progress entries included, is lost by dropping sidechains exactly when no ancestor is on one |
| ForkReadBack.FullFork | src/session_management/disk.rs:734-817 | when the last user or assistant entry is main (no sidechain, team or meta entry) and the source chain is off sidechains, the chain of the full fork, leaf included, is the renamed source chain without its progress entries |
| ForkReadBack.FullForkReadsTheSameMessages | src/session_management/store.rs:745-766 | under the same hypotheses and with no team entry on the source chain, the visible messages of the fork are those of the source with uuids renamed |
| DiskFork.InertDoesNotShow | src/session_management/store.rs:777-863 | an entry that is no message, has no parent and is nobody's parent or namesake changes no conversation |
| DiskFork.FileEntries | src/session_management/disk.rs:241-254 | the entries of a session file are those of its lines that parse to an entry of one of the five types with a uuid, in order |
| DiskFork.ForkKept | src/session_management/disk.rs:241-254 | the session file reader keeps every forked entry and drops exactly the title entry |
| DiskFork.DiskForkReadsBack | src/session_management/disk.rs:617-690 | a fork of transcript entries, kept through the reader's filter, retells what the in-memory fork promises |
| DiskFork.FileForkReadsBack | src/session_management/disk.rs:234-254 | from file to file: the entries read from the source file, forked, printed one a line and read back retell the last forked message's main story |
| StoreFork.ForkSessionViaStore | src/session_management/store.rs:689-744 | an invalid id or an unforkable transcript leaves the store untouched; otherwise exactly one append, of the fork of the loaded transcript, under the new session |
| StoreFork.GetSessionMessagesFromStore | src/session_management/store.rs:432-457 | nothing for an invalid id or unknown session, else a page of what the one conversation of the stored transcript shows |
| StoreFork.StoreForkReadsTheSame | src/session_management/store.rs:689-744 | after a fork over any history the new session holds the forked lines and every other transcript is unchanged; where the loaded transcript is well-named, its chain is the renamed source chain exactly when both end in the same entry and only progress entries are lost, and then its reader sees the same messages exactly when the source hides none of them |
| StoreFork.StoreForkOfMainReadsTheSame | src/session_management/store.rs:689-744 | both conditions hold when the last message is main and the source chain is off sidechains and teams |
| StoreFork.ForkIsTitled | src/session_management/disk.rs:801-816 | the new session's summary carries the title of the fork, given, derived or stock |
| StorageKeys.KeyRoundTrip | src/session_management/store.rs:62-67 | a slash-free key can be read back from the string it is stored under |
| StorageKeys.KeyRoundTripExactly | src/session_management/store.rs:62-67 | a key can be read back from its string exactly when it is slash-free |
| StorageKeys.ClashesExactly | src/session_management/store.rs:62-67 | a key shares its string with a different slash-free key exactly when it is not slash-free itself |
| StorageKeys.StorageKeyInjective | src/session_management/store.rs:62-67 | distinct slash-free keys are stored under distinct strings |
| StorageKeys.PrefixCovers | src/session_management/store.rs:205-211 | the prefix used by deletion and subkey listing covers exactly the subpath keys of that session |
| StorageKeys.ProjectCovers | src/session_management/store.rs:154-176 | the prefix test of the session listing accepts exactly the main transcripts of that project |
| StorageKeys.SlashesCollide | src/session_management/store.rs:62-67 | an instance: two keys with slashes in them that share a string |
| SessionStore.InMemorySessionStore.TickMtime | src/session_management/store.rs:50-59 | the new write time is the clock's when that is later than the last one, else the last one plus one |
| SessionStore.InMemorySessionStore.Append | src/session_management/store.rs:110-139 | one append extends the transcript, stamps it, and for a main key refolds the batch into the summary; the state stays what the history makes it |
| SessionStore.InMemorySessionStore.Delete | src/session_management/store.rs:196-224 | the loop over subkeys removes the key, and for a main key every string under its prefix and the summary |
| SessionStore.InMemorySessionStore.Reset | src/session_management/store.rs:100-106 | clearing brings the store back to its initial state |
| SessionStore.InMemorySessionStore.Load | src/session_management/store.rs:141-152 | the transcript stored under the key, if there is one |
| SessionStore.InMemorySessionStore.ListSessions | src/session_management/store.rs:154-176 | exactly the slash-free rests after the project prefix among the stored strings, once each, with their times |
| SessionStore.InMemorySessionStore.ListSessionSummaries | src/session_management/store.rs:178-194 | exactly the project's summaries, that of each session once |
| SessionStore.InMemorySessionStore.ListSubkeys | src/session_management/store.rs:226-243 | exactly the rests after the session prefix among the stored strings, once each |
| StoreTheorems.RunIsFaithful | src/session_management/store.rs:46-224 | after any run with slash-free keys, whatever the clock and the batches: every transcript is what was appended since its last deletion, times are distinct and belong to the stored keys, and every summary is the from-scratch fold of the whole transcript under the listed time |
| StoreTheorems.ApplyKeepsTimes | src/session_management/store.rs:50-59 | no operation ever makes two stored keys share a write time, however the clock behaves |
| StoreTheorems.BatchingDoesNotShow | src/session_management/store.rs:121-127 | two histories that leave a session the same transcript leave it the same summary apart from its time |
| StoreTheorems.ClockBound | src/session_management/store.rs:50-59 | write times exceed the latest clock reading by at most the number of operations |
| StoreTheorems.ListedSessions | src/session_management/store.rs:154-176 | `list_sessions` names exactly the sessions whose history left a main transcript |
| StoreTheorems.ListedSubkeys | src/session_management/store.rs:226-243 | `list_subkeys` names exactly the subpath transcripts the history left |
| StoreTheorems.DeleteRemovesExactlyTheSession | src/session_management/store.rs:196-224 | deleting a main key removes that session's transcript, subpath transcripts, times and summary, and changes no other session |
| Summary.FoldFirstPrompt | src/session_management/summary.rs:114-151 | the locking loop equals folding the entry's prompt texts one by one |
| Summary.FoldOneEntry | src/session_management/summary.rs:61-109 | the step-by-step edits equal the fold of one entry |
| Summary.FoldSessionSummary | src/session_management/summary.rs:42-59 | one batch folded into the previous summary keeps the session id and the previous time |
| Summary.FoldConcat | src/session_management/summary.rs:42-59 | folding two batches in turn equals folding their concatenation |
| Summary.FoldAnyBatches | src/session_management/summary.rs:42-59 | folding any sequence of batches in turn equals folding all their entries at once |
| Summary.FoldDescribes | src/session_management/summary.rs:61-109 | every field of a summary folded from scratch in terms of the transcript: which fields take the first value, which the last, when the tag is cleared, when the session counts as a sidechain |
| Prompts.ReadExactly | src/session_management/summary.rs:129-149 | what one text is, by its characters: newlines become spaces, the white space around it goes, a command is a command, and a real prompt is kept up to 200 characters, cut with an ellipsis |
| Text.TrimExactly | src/session_management/summary.rs:131-131 | trimming takes away exactly the white space around a text |
| Text.WhitespaceCodes | src/session_management/summary.rs:131-131 | white space is these 25 code points |
| Prompts.OffersExactly | src/session_management/summary.rs:114-128 | the texts an entry offers, field by field: none unless it is a user entry, neither meta nor compact summary; its content if that is a string; else the texts of its text blocks, and none beside a tool result |
| Prompts.EntryPrompts | src/session_management/summary.rs:114-151 | folding one entry into any summary: a locked one stays, else the first real prompt the entry offers locks it, and the fallback stays or becomes the first command before that prompt |
| Prompts.FoldFindsPrompts | src/session_management/summary.rs:114-151 | folding a transcript from scratch: the same for the texts all its entries offer, in order |
| Prompts.ScanFindsPrompts | src/session_management/summary.rs:160-204 | the scanner returns the first real prompt, else the first command, offered by the lines that contain none of the excluding substrings and parse to a user entry |
| Summary.FirstPromptFromTextLines | src/session_management/summary.rs:160-204 | the early-exit scan finds the prompt, else the command, that reading all lines would give |
| Summary.ScannerAgreesWithFold | src/session_management/summary.rs:114-204 | where the substring filters agree with the parsed fields, the scanner and the fold, over any sequence of batches, find the same prompt or fallback |
| Summary.InfoReads | src/session_management/summary.rs:251-292 | a session is listed exactly when it is no sidechain and some text is non-empty, under the first such text in order of preference; every other field is the first non-empty of its alternatives |
| Sorting.SortIsStable | src/session_management/store.rs:302-302 | elements of equal time keep their order |
| Sorting.StrictlyDescUnique | src/session_management/store.rs:302-302 | only one strictly decreasing sequence holds given elements |
| Listing.RepairStale | src/session_management/store.rs:325-347 | repairing the stale ids one by one, in any order, equals replacing all of them by their refold, except those whose load fails or finds nothing |
| Listing.ListSessionsViaSummaries | src/session_management/store.rs:306-354 | what is listed, session by session: the last summary given for it, or the fold of its transcript when it has none or one older than its last listed write and the transcript loads; once each; a listing failure is passed on, an unimplemented listing repairs nothing |
| Listing.ListSessionsViaFullLoads | src/session_management/store.rs:356-396 | the information of the page of sorted sessions in order, loaded in chunks; both error cases |
| Listing.ListSessionsFromStore | src/session_management/store.rs:281-304 | which path is taken and when it fails; the page of the sorted information, cut twice on the path of full loads |
| Listing.RepairIsRefold | src/session_management/store.rs:319-347 | with loads that succeed, stale repair equals refolding everything exactly when no summary is of an unlisted session and every summary not older than the session's last listed write is its transcript's fold |
| Listing.PathsAgree | src/session_management/store.rs:281-396 | for a store whose index repairs to a refold and whose times are distinct, the two paths return the same page, for every limit and offset, exactly when neither cut of the full loads (one before sessions without information drop out, one after) costs an entry, as counted by the sessions with information before, on and after the page |
| Listing.InMemoryPathsAgree | src/session_management/store.rs:281-396 | the same for the in-memory store after any run, and the indexed list is strictly decreasing in time |
| Listing.PathsAgreeWhenAllHaveInfo | src/session_management/store.rs:281-396 | where every session has information the two paths return the same page exactly at offset zero or beyond the last session, whatever the limit |
| Listing.OffsetCutTwice | src/session_management/store.rs:281-396 | two titled sessions, offset one: the path through the summaries lists the second, full loads list nothing, as the second cut skips it |
| Listing.LimitCutFirst | src/session_management/store.rs:281-396 | a titled session below a newer empty one, limit one: the path through the summaries lists the older, full loads list nothing, as the first cut drops it |
| Listing.WholeListing | src/session_management/store.rs:281-396 | without offset and limit the two paths return the same list after any run, and it is exactly the information of the transcripts the history left, folded from scratch |
| Listing.Snapshot | src/session_management/store.rs:109-194 | what the in-memory store answers to a listing |
| Listing.ListStoredSessions | src/session_management/store.rs:281-304 | listing a project of the in-memory store returns exactly the information of the transcripts its history left, latest first |
| Listing.PageTwice | src/session_management/store.rs:249-262 | when a page of a page equals the page of the whole |
| Listing.GetSessionInfoFromStore | src/session_management/store.rs:405-423 | nothing for an invalid id or a missing transcript, errors passed on, else the refolded information |
| Listing.SingleInfoLacksTime | src/session_management/store.rs:421-422 | information fetched for one session equals the listed one except that its time is zero |
| Calendar.DaysRoundTrip | src/session_management/iso8601.rs:108-130 | every day number comes back from its date |
| Calendar.DateRoundTrip | src/session_management/iso8601.rs:108-130 | every valid Gregorian date comes back from its day number |
| Calendar.NextDayIsNextDate | src/session_management/iso8601.rs:119-130 | consecutive day numbers are consecutive calendar dates under the 4/100/400 leap rule |
| Calendar.EpochIsDayZero | src/session_management/iso8601.rs:106-107 | 1970-01-01 is day zero, which fixes the date of every other day number |
| Calendar.YearOfEraCorrect | src/session_management/iso8601.rs:122-122 | the three correction terms recover the year from the day of the era |
| Iso8601.FormatRoundTrip | src/session_management/iso8601.rs:45-92 | for every 64-bit time, parsing its printed form gives the time back exactly from year 0 onward and nothing before |
| Iso8601.YearZeroStarts | src/session_management/iso8601.rs:45-57 | the guard of that round trip as a bound on the time itself |
| Iso8601.BeforeYearZero | src/session_management/iso8601.rs:45-92 | the last millisecond before year 0 prints as something the parser rejects |
| Iso8601.RoundTripStaysIn64Bits | src/session_management/iso8601.rs:62-116 | from year 0 onward no intermediate of the parser overflows 64 bits |
| Iso8601.FormatStaysIn64Bits | src/session_management/iso8601.rs:45-54 | the formatter overflows on no 64-bit time, year 0 or not |
| Iso8601.ParsePrinted | src/session_management/iso8601.rs:62-105 | any timestamp printed in columns parses back to its fields and its offset |
| Iso8601.OffsetShifts | src/session_management/iso8601.rs:88-105 | a numeric offset shifts the result by exactly that offset |
| Timestamps.WrittenTimeParses | src/session_management/iso8601.rs:62-105 | a date and time written with or without a fraction of any length, and with no zone, a Z, or a sign and hours with or without minutes, parses to its calendar time less its offset |
| Timestamps.NoTimeWithoutT | src/session_management/iso8601.rs:63-64 | a text without a T is no time |
| Timestamps.PrintedColumns | src/session_management/iso8601.rs:45-57 | a time of the years 0 to 9999 prints as 24 characters whose fixed columns hold its calendar date and time of day |
| Decimal.PaddedRoundTrip | src/session_management/iso8601.rs:55-56 | a zero-padded numeral parses back to its number |
| Paths.SimpleHash | src/session_management/paths.rs:22-43 | the two loops compute the hash text of the polynomial |
| Paths.HashMeaning | src/session_management/paths.rs:22-43 | that text is the base-36 form, with no leading zero and at most six digits, of the absolute value of the signed 32-bit residue of the base-31 polynomial of the characters |
| Paths.SanitizedKey | src/session_management/paths.rs:48-59 | a key is the name with dashes for everything but letters and digits, cut at 200 characters with the hash of the whole name behind; so it is over letters, digits and dashes and at most 207 characters long |
| Paths.TruncatedKeysKeepTheHash | src/session_management/paths.rs:48-59 | truncated names with different hashes get different keys |
| Protocol.RequestIdInjective | src/protocol/control.rs:233-236 | the counter never repeats an id |
| Protocol.ErrorRead | src/protocol/query.rs:552-590 | the text of an error result: the strings among its errors, joined in order, else its subtype, else a stock phrase |
| QueryActor.SubprocessTransport.WriteLine | src/transport/subprocess.rs:308-335 | a write is dropped unless the transport is ready and its input open, and a write cut short makes it unready |
| QueryActor.SubprocessTransport.EndInput | src/transport/subprocess.rs:337-342 | ending the input closes it and nothing else |
| QueryActor.SubprocessTransport.Close | src/transport/subprocess.rs:362-387 | closing makes the transport unready and closes the input |
| QueryActor.Query.Issue | src/protocol/query.rs:189-191 | a new call under an id of its own |
| QueryActor.Query.InsertPending | src/protocol/query.rs:192-196 | the step that puts the sender into the pending map |
| QueryActor.Query.SendRequest | src/protocol/query.rs:198-209 | the request line is enqueued, or refused when the driver is gone |
| QueryActor.Query.AwaitReply | src/protocol/query.rs:211-225 | a filled channel wins over the clock; the caller is never told that its sender went away |
| QueryActor.Query.RemovePending | src/protocol/query.rs:227-232 | the caller takes its id out and returns a timeout or a refusal |
| QueryActor.Query.Offer | src/protocol/query.rs:312-372 | lines, end of input and close go through the one channel and are refused once the driver is gone |
| QueryActor.Query.NextMessage | src/protocol/query.rs:357-359 | messages come out first in, first out; without one the consumer waits while the driver may still send and is told the end once it has returned, and told so after the driver stopped by itself it has received the whole stream |
| QueryActor.Query.FinishHandler | src/protocol/query.rs:639-653 | a handler's response goes through the same channel under its own request's id |
| QueryActor.Query.DriveCommand | src/protocol/query.rs:415-434 | one turn on a command, for a close up to closing the transport |
| QueryActor.Query.DriveRead | src/protocol/query.rs:435-470 | one turn on a value, a read error or the end, up to closing the transport |
| QueryActor.Query.ReturnDriver | src/protocol/query.rs:425-469 | after closing the transport the driver returns, and what is left in the channel is dropped |
| QueryActor.Query.AbortInflight | src/protocol/query.rs:426-428 | draining the inflight map aborts exactly its tasks |
| QueryActor.Query.FailAllPending | src/protocol/query.rs:476-485 | draining the pending map fills exactly its senders' channels |
| QueryActor.Query.RouteMessage | src/protocol/query.rs:508-550 | the routing of one value |
| QueryActor.Query.RouteControlResponse | src/protocol/query.rs:592-625 | a response settles the sender its id names, if there is one |
| QueryActor.Query.SpawnControlRequestHandler | src/protocol/query.rs:627-659 | an understood request starts a task and replaces an earlier one of the same id in the map |
| QueryActor.Query.TrackLastErrorResultText | src/protocol/query.rs:552-590 | the remembered text after one forwarded message |
| QueryCalls.RunAccountsCalls | src/protocol/query.rs:184-232 | in every reachable state each call's channel holds exactly the first delivery to its id among what was read while it was registered, and the pending map holds exactly the calls still open |
| QueryCalls.OutcomesExplained | src/protocol/query.rs:211-232 | an answered call was answered by the first response to its own id since it was registered, with the error that response reports or the value it carries; a failed one by a read error before any such response; a timed out or refused one has left the pending map; no call is told that its sender vanished |
| QueryCalls.PendingExactly | src/protocol/query.rs:190-196 | the pending map holds exactly the registered calls without outcome to which nothing was delivered |
| QueryCalls.OutcomesAreFinal | src/protocol/query.rs:184-225 | no continuation of a run changes an outcome |
| QueryCalls.RequestIdsDiffer | src/protocol/query.rs:190-190 | no two calls of a run share an id, and each id is its number between the prefix and the suffix |
| QueryCalls.LateResponseChangesNothing | src/protocol/query.rs:592-610 | a response that answers no open call changes nothing |
| QueryCalls.ResponseSettlesItsCall | src/protocol/query.rs:592-625 | a response to an open call fills that call's channel, with the error it reports or the value it carries (the empty object without one), takes its id out of the pending map, and changes nothing else |
| QueryCalls.AnswerReachesTheCaller | src/protocol/query.rs:211-225 | and the waiting caller gets exactly that, late or not |
| QueryCalls.AfterStopOnlyTimeouts | src/protocol/query.rs:425-469 | once the driver has left its loop, a waiting call to which nothing was delivered can only time out, also when it was sent afterwards |
| QueryCalls.UnansweredWaits | src/protocol/query.rs:461-469 | a run in which a request is sent and the output ends: the caller waits on after the driver has returned, until its own timeout |
| QueryCalls.StoppingAndOpenCalls | src/protocol/query.rs:448-469 | a read error settles exactly the open calls, all of them as failed; a clean end and a close settle none |
| QueryCalls.RefusedOnlyByReturn | src/protocol/query.rs:204-209 | a request is refused only after the driver has returned |
| QueryRequests.EachRequestSentOnce | src/protocol/query.rs:198-209 | over any run a request is enqueued exactly once if its caller got past sending, and not at all before that or when refused |
| QueryWire.WireIsPrefix | src/protocol/query.rs:415-473 | the bytes on the process's input are at every moment a prefix, in order, of the lines enqueued before the first end of input or close |
| QueryWire.WireIsComplete | src/transport/subprocess.rs:308-342 | unless a write was cut short, none of the lines dequeued before that point is missing |
| QueryWire.NothingAfterClose | src/protocol/query.rs:425-469 | the transport is closed exactly when the driver has left its loop, once, and nothing is attempted on it afterwards |
| QueryHandlers.ResponsesNeverOutnumber | src/protocol/query.rs:627-659 | over any run the responses enqueued for an incoming id never outnumber the requests read with that id |
| QueryHandlers.RunKeepsHandlers | src/protocol/query.rs:627-659 | responses per id equal the tasks of that id that responded, tasks per id equal the requests read, and the inflight map leads to the latest running task of each id |
| QueryHandlers.CancelSilences | src/protocol/query.rs:523-540 | with an id requested once, a cancel read while the handler runs means that no response to it is ever enqueued |
| QueryHandlers.CancelStopsTheLatest | src/protocol/query.rs:530-540 | a cancel stops a running handler exactly when no later request reused its id |
| QueryHandlers.CancelMissesTheFirst | src/protocol/query.rs:530-540 | for every request body the handlers understand: two requests under one id and a cancel of it, and the first handler still responds |
| QueryHandlers.CloseStopsTheLatest | src/protocol/query.rs:425-432 | a close aborts, of the handlers still running, exactly those whose id no later request reused |
| QueryHandlers.CloseSilences | src/protocol/query.rs:425-432 | with an id requested once, a close taken while the handler runs means that no response to it is ever enqueued |
| QueryHandlers.NothingSentAfterStop | src/protocol/query.rs:404-473 | once the driver has left its loop nothing is taken, written or read any more, and once it has returned nothing is enqueued |
| QueryMessages.DeliveredIsPrefix | src/protocol/query.rs:435-470 | what the consumer has received is at every moment a prefix of the forwarded values followed by at most the first read error |
| QueryMessages.StreamIsComplete | src/protocol/query.rs:435-470 | when the driver stops at the end or at an error nothing of that stream is missing |
| QueryMessages.EndMeansWhole | src/protocol/query.rs:357-359 | whoever finds nothing more to receive after the driver stopped at the end or at an error has received the whole stream |
| QueryMessages.ErrorIsLast | src/protocol/query.rs:448-460 | there is at most one error and nothing follows it |
| QueryMessages.RememberedText | src/protocol/query.rs:552-590 | the remembered text is that of the last forwarded message other than a state change when that is an error result, and none otherwise |
| QueryMessages.ExitErrorRewritten | src/protocol/query.rs:487-504 | a process-exit error is rewritten exactly when the messages before it end in an error result, with that result's text |
| Framing.ReadState.ReadOneLine | src/transport/subprocess.rs:438-475 | one line as text, the clean end, or one of the three failures |
| Framing.ReadState.ReadNextMessage | src/transport/subprocess.rs:402-433 | each call takes the head off the remaining stream |
| Framing.OnlyLastIsError | src/transport/subprocess.rs:402-433 | the stream has at most one error, and nothing after it |
| Framing.FramedRoundTrip | src/transport/subprocess.rs:402-492 | well-formed lines read back as exactly their values in order, diagnostics between them skipped, then the exit status |
| Framing.LineRead | src/transport/subprocess.rs:438-492 | a line with its feed, in terms of the two decoders alone: too long, not a text, an object and its value, an object that does not parse, or nothing, whatever white space surrounds it |
| Framing.LastLineRead | src/transport/subprocess.rs:438-492 | an unfinished last line is read like any other at a clean end |
| Framing.EndRead | src/transport/subprocess.rs:494-506 | the end of the output: nothing, a failed exit, or broken off, and then an unfinished line is lost |
| Framing.PrintedLine | src/transport/subprocess.rs:481-492 | the well-formed lines are those that print an object or nothing, and they yield what they print |
| Framing.PrintedLinesRead | src/transport/subprocess.rs:402-492 | values printed one a line, with other lines between them, read back as those values in order |
| Session.ConsumerGetsTheLines | src/protocol/query.rs:404-550 | from bytes to consumer: after a normal exit the consumer gets the values that the objects printed a line each parse to, in order, without control traffic and mirrors, and no error |
| Session.ConsumerGetsTheExit | src/protocol/query.rs:448-504 | after an abnormal exit it gets those values and then that exit, rewritten exactly when they end in an error result |
| Client.NextReceived | src/client.rs:171-192 | the first message the parser does not skip, as an error or as what it parses to; what follows it is left in the queue |
| Client.ResponseStream.Next | src/client.rs:140-163 | a stream that has yielded its result or its error yields nothing more and leaves the queue alone |
| Client.ReceiveResponse | src/client.rs:140-163 | one drain ends with its only result or its only error, or has exhausted the queue |
| Client.ReceiveResponses | src/client.rs:140-163 | repeated drains concatenate to a prefix of the parsed stream: nothing lost, duplicated or reordered |
| Client.DrainsAreTheCut | src/client.rs:140-163 | whole drains can only be the stream cut after every result and every error |
| Client.AllDrainsAreTheCut | src/client.rs:140-163 | the drains of an exhausted stream, the unfinished last one included, are exactly that cut |

## Left out

- JSON text, UTF-8 decoding and the typed shapes of messages, hooks, options and permissions: parsed values, decoders and the message parser are parameters.
- Uuid generation: a fork's new uuids are an injective function of the position they are drawn for.
- The clock, file times, directories, worktrees and path canonicalization: foreign state; a write's clock reading is an arbitrary number.
- Process start-up, argument lists, version check, kill timeouts and the stderr reader: operating-system work.
- Unicode sanitizing of tags and the two prompt patterns: the patterns are abstract, the sanitizer is not part of this model.
- The head and tail scan of session files and the tag written to them: a heuristic over truncated text.
- Rename, tag and delete through the store or on disk: each is one append or one delete of the modelled store.
- Listing of subagents and their agent ids: a filter over the modelled subkey listing.
- SessionStore.InMemorySessionStore.TickMtime: write times are unbounded integers; `StoreTheorems.ClockBound` bounds them by the clock plus the length of the history.
- Summary.FoldSessionSummary: the summary is a record of the keys the fold itself writes; foreign keys or a non-object summary handed in by another store are not represented.
- Protocol.RequestIdInjective: the counter is unbounded, so the wrap of a 64-bit counter is not modelled.
- Iso8601.ParsePrinted: the sums of arbitrary accepted fields can overflow 64 bits in the code and a fraction that is not ASCII can make it panic; the model adds without bound (also in `Timestamps.WrittenTimeParses`), and only for printed times from year 0 onward is it proved that nothing overflows.
- Fork.BuildForkLines: callers must rule out a progress cycle, on which the code does not return; `ForkClimb.ClimbEndsExactly` says which transcripts those are.
- Listing.ListSessionsFromStore: concurrent loads are modelled as a function of the session id, so a store that changes between two loads of one listing is not represented.
- QueryActor.Query.AwaitReply: a caller that drops its future while waiting is not modelled; its entry would stay in the pending map.
- QueryActor.Query.FinishHandler: what a handler answers is arbitrary; looking a handler up and the JSON-RPC wrapping of its answer are not modelled.
- QueryActor.Query.Offer: the acknowledgement of a close and the wait for the driver are not modelled; real time and fairness are not either.
- The cached initialization result and `disconnect`: single reads and writes.
- Callback numbering and the in-process tool server: small, and independent of the protocol's state.
