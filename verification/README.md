# Stoop's message server, modelled and proved

The chat half of the server, in five parts, each with the properties its
comments and documentation promise.

**Mention tokens and the Markdown parse.** `Bytes`, `Tokens`, `Rewriting`,
`Markdown`, `Blocks`, `Parser`, `Offsets`, `Mentions`, `Words`,
`CheckMentions`, `JoinedTokens`, `Contexts`, `Places`, `StoredTokens`,
`Fences`, `EveryoneWords`, `Labels`. A token is written, recognised, split and rewritten over byte
strings; the parser's loops are methods proved equal to functions of the
source; and `checkMentions` is the loop that rewrites a message until nothing
changes. The hard part is why its answer is right. Words of a link and a
spoiler are parsed from rewritten text, so a token joined there claims an
offset that belongs to something else, and an unrelated token can look live in
a pass in between. `Offsets.Sound` says what survives: a mention that is not
where it says claims an offset below that of a token shown as text. At the
fixpoint every token is claimed live, so each false claim needs another further
on, and the claims run out (`Mentions.Climb`). What that answer is, text by
text, is in `Places` and after it: for every token, between any two stretches of
text without markup, bare or escaped, in a style, a spoiler, code, a link's
words or a fence, whether it is a mention, what is stored, and who is told.

**The channel log.** `ThreadSummaries`, `ChannelLog`, `Transactions`,
`LogSafety`, `Effects`, `ChannelRuns`, `ChannelStore`, `CatchUp`,
`StrictMerging`, `EventPositions`, `Previews`, `Paging`.
A channel is its position, rows, thread summaries, pins and newest message.
`ChannelStore.Channel` runs the SQL statements in place, with rollback, each
method proved against the transaction in `Transactions`. `ChannelLog.Valid` is
what every committed state keeps and `ChannelLog.Extends` is what every later
state owes a reader of an earlier one; `ChannelRuns` lets handlers check first
and their transactions commit later, in any order. `CatchUp` is a client: the
channel's seq, the rows and the five hydrating reads of a page happen at
different moments, with commits between them. `EventPositions` moves that
client's position by events as well: it keeps every row's versions and says of
each part of a held copy which version it is from.

**Retention.** `Retention`, `Sweeping`, `SweepRuns`. The floor as a UUIDv7 text
id (section 5.7 of RFC 9562; its order is section 6.11's), the sweep over all
channels, and the sweep while they change.

**Activity.** `Activity`, `Alerts`. The feed's statements, the two markers and
the one rule they share; who a message alerts.

**Ownership and order.** `ServerOwnership`, `SpaceOwnership`, `Reordering`.

Check everything with `dafny verify dfyconfig.toml --resource-limit 2000000`.

## What holds only under a condition

Each of these is the code as it is, with the condition under which the promise
holds and an input, or a run from the start, on which it does not.

- A card is part of a message as a client draws it, but a refetched address
  stamps only the message that asked, or none if that one was deleted
  (`Previews.RefetchStampsOneMessage`, `Previews.OtherCardChanges`;
  `internal/chat/seq.go:13-20` says every such write stamps its row).
- A pass of `checkMentions` after the first may only rename a token it joined
  (`internal/chat/mention_tokens.go:109-111` says each writes one as text), so
  the loop ends by `<`s first and stale names second (`Rewriting.Progress`,
  `Rewriting.KeepingPassRenames`; `JoinedTokens.SecondPassRenames` is a family
  of such texts and `JoinedTokens.RenameOnlyPass` one of them).
- A token keeps its place in a style whatever its name holds
  (`internal/chat/markdown.go:134`), except that an underline around it ends at
  the name's own "__": it is a mention there exactly when it holds none
  (`Places.WhereTokensLive`). "__<@u:ID:a__b>__" mentions nobody, while the bare
  token does (`StoredTokens.OwnPairEnds`); a name that gets its "__" by a rename
  is stored as its new text (`StoredTokens.WhatIsStored`).
- Delete thread can spend a position on nothing: exactly when the placeholder
  it read was hidden since (`Effects.HiddenRootIsStampedAgain`,
  `Effects.SpentOnNothing`).
- The sweep takes a root pinned after it was listed
  (`Sweeping.PinnedSurvives`, `Sweeping.PinnedMeanwhile`).
- "Higher seq wins" (`mobile/README.md:591-606`) is enough while every event
  carries its whole row (`StrictMerging.StrictConverges`). Beside events that
  patch a part it is not (`StrictMerging.StrictLoses`): the server's whole row
  must also win a tie, as `web/src/core/channelLog/rows.ts:64-65` does, and then
  any event will do (`CatchUp.CatchUpConverges`).
- Moving the client's position by the next event is right in every history in
  which no event moves it at a seq that an earlier event was patched onto a held
  copy at (`EventPositions.EventsConverge`). An edit that reloads its message
  after a reaction sends its whole row at the reaction's seq, which does not win
  the tie with the patched copy and moves the position all the same
  (`EventPositions.LateReloadLoses`).
- An unread item can have been seen exactly when a marker was moved past it by
  a credential that does not cover activity (`Activity.UncoveredMoveShows`,
  `Activity.SeenAndUnread`, `Activity.UncoveredThreadMoveShows`,
  `Activity.SeenInThreadAndUnread`).
- A refresh takes an unread item away with nothing in its place exactly when
  the message it moves to was seen; recorded out of order, that loses a newer
  unseen message (`Activity.RefreshLosesUnseen`, `Activity.OutOfOrderLoses`).
- A longer retention period lowers the floor as long as a duration holds it; a
  day more would raise it past now, which is what the setting's limit is for
  (`Retention.PeriodFits`, `Retention.OverlongPeriodRaises`).
- What is still expired when a sweep ends was pinned when it last listed
  (`SweepRuns.OnlyUnpinnedLeft`).
- With checks and writes apart a space keeps its owner exactly when every write
  is harmless as it lands (`SpaceOwnership.BusySpaceStaysOwned`): a member
  checked and then made owner can still be removed or given a role
  (`SpaceOwnership.TransferInBetween`), and a hand-over overtaken by a transfer
  can name an owner who is no member (`SpaceOwnership.HandOverInBetween`).
- From its first account on a server keeps its owner exactly when no sign-up
  undone for its invite is by then the owner's (`ServerOwnership.ServerStaysOwned`,
  `ServerOwnership.OwnerUndone`); a reactivation checked before a deletion brings
  the account back (`ServerOwnership.DeletedStayOut`,
  `ServerOwnership.DeletedBroughtBack`); the early last-admin refusal can fire,
  but only at someone who is no longer an active admin
  (`ServerOwnership.EarlyLastAdminInRun`, `ServerOwnership.RefusedAsLastAdmin`);
  and someone handed the server after the early refusals has left their spaces
  and keeps the account (`ServerOwnership.LockedAfterEarly`,
  `ServerOwnership.LeftAndKept`).

## Model

| member | source | states |
|---|---|---|
| Tokens.Accepts | internal/chat/mention_tokens.go:211-247 | tokenLength accepts whatever tokenText writes from valid parts, whole, whatever follows it |
| Tokens.AcceptsOnly | internal/chat/mention_tokens.go:211-247 | and nothing else: what it accepts is tokenText of valid parts |
| Tokens.PartsOfToken | internal/chat/mention_tokens.go:260-266 | tokenParts then tokenText gives the token back |
| Tokens.PartsRoundTrip | internal/chat/mention_tokens.go:268-275 | tokenText then tokenParts gives the parts back |
| Tokens.TokenShape | internal/chat/mention_tokens.go:277-282 | a token holds one `<`, at its start, no line end, and is longer than its own text, which holds none |
| Tokens.TokenLength | internal/chat/mention_tokens.go:211-247 | the hand-written scan answers the token's length, or 0 |
| Rewriting.SpanFound | internal/chat/mention_tokens.go:190-207 | the scan visits every position at which a token begins |
| Rewriting.SpanHolds | internal/chat/mention_tokens.go:190-207 | and only those, with where each ends |
| Rewriting.EachToken | internal/chat/mention_tokens.go:190-207 | the cursor loop finds exactly those spans, in order |
| Rewriting.WriteTokens | internal/chat/mention_tokens.go:168-188 | the loop storedForm, tokensAsText and current share copies the text between tokens and writes each token anew |
| Rewriting.WriteAsText | internal/chat/mention_tokens.go:286-299 | every token becomes its handle or name as text; the shortcut for text without a `<` changes nothing |
| Rewriting.TextIsNoLonger | internal/chat/mention_tokens.go:284-299 | text rewritten as text never grows, so the parse of a label or a spoiler is of shorter text |
| Rewriting.JoinedFromLater | internal/chat/mention_tokens.go:109-111 | a token in rewritten text was joined by tokens written as text, one of which began further on than the joined one now does |
| Rewriting.RenameKeepsScan | internal/chat/mention_tokens.go:391-415 | renaming keeps every token a token, in order, makes no new one and leaves the text between alone |
| Rewriting.WriteCurrent | internal/chat/mention_tokens.go:391-415 | a preview shows the stored tokens under their current names, and the same text between |
| Rewriting.PassCounts | internal/chat/mention_tokens.go:168-188 | a pass never adds a `<`, and drops none only if it keeps every token |
| Rewriting.Progress | internal/chat/mention_tokens.go:112-116 | a pass that changes the text drops a `<`, or keeps them all and leaves fewer stale names: the loop ends on every input and directory |
| Rewriting.KeepingPassRenames | internal/chat/mention_tokens.go:109-116 | a pass that writes no token as text still changes the text exactly when a name is stale |
| Rewriting.Settled | internal/chat/mention_tokens.go:109-116 | a text that a pass leaves alone holds only kept tokens under their current names |
| JoinedTokens.SecondPassRenames | internal/chat/mention_tokens.go:109-116 | for every text of a live token, a `<` and a dead token whose name begins the live one's id: the first pass joins a token and the second changes only its name |
| JoinedTokens.RenameOnlyPass | internal/chat/mention_tokens.go:109-116 | one such text and directory |
| Parser.FindCloser | internal/chat/markdown.go:310-328 | the first place the delimiter closes, looking inside tokens too, or none |
| Parser.TrimURL | internal/chat/markdown.go:342-353 | a non-empty start of the address, without trailing punctuation but with the parentheses it balances |
| Parser.MatchLabelled | internal/chat/markdown.go:199-244 | a label, its address and its words, parsed from the words as text with base 0 |
| Parser.CloseOnStarRun | internal/chat/markdown.go:289-308 | a run of stars whose first close the italic inside the bold |
| Parser.MatchDelimited | internal/chat/markdown.go:255-287 | the first delimiter that opens and closes here, longest first; what that makes of a token in each style is in Places.WhereTokensLive |
| Parser.ParseInlineAt | internal/chat/markdown.go:123-197 | the one pass over the source, in bounds on every byte string, with the text between nodes flushed in place |
| Parser.ParseMarkdown | internal/chat/markdown.go:67-115 | fences, quotes, lists and lines, each row parsed from its own offset |
| Offsets.ParseSound | internal/chat/markdown.go:117-306 | every mention outside labels and spoilers is a whole token of the source where it says, in order; any other claims an offset below that of a token the parse shows as text |
| Offsets.SoundRewritten | internal/chat/markdown.go:239-240 | the same for words parsed from rewritten text, where the offset claimed is always too small |
| Offsets.SoundOutward | internal/chat/markdown.go:289-308 | and for a stretch parsed from its own place |
| Blocks.MessageSound | internal/chat/markdown.go:67-115 | the same for a whole message, through lines, quotes, lists and fences |
| Mentions.Climb | internal/chat/mention_tokens.go:109-116 | when every token is claimed live each one is, since a false claim needs a dead token further on |
| Mentions.InOrderIsScan | internal/chat/mention_tokens.go:190-207 | live mentions in order that miss no token are the scan's own tokens |
| Mentions.FixpointIsExact | internal/chat/mention_tokens.go:109-132 | at the fixpoint the mentions the parse shows are exactly the live ones and exactly the tokens of the text |
| Words.ShortcutIsExact | internal/chat/mention_tokens.go:44-52 | a message without tokens or a hint of an everyone-word shows none, so answering before the parse changes nothing |
| CheckMentions.ReadNames | internal/chat/mention_tokens.go:63-107 | the names found are those of the readers, groups and public channels the shown tokens ask for, each once |
| CheckMentions.FixpointIsChecked | internal/chat/mention_tokens.go:38-44 | a text a pass leaves alone keeps only live tokens of someone or something the author may name here, under the current name |
| CheckMentions.CheckedIsStable | internal/chat/mention_tokens.go:109-116 | running it again on its result changes nothing |
| CheckMentions.IdsAreExact | internal/chat/mention_tokens.go:122-130 | the people and groups told are those the mentions name, each once |
| CheckMentions.CheckMentions | internal/chat/mention_tokens.go:44-132 | for every message and directory: ends where the passes do, stores a checked text, leaves a checked one alone, and tells exactly those its kept tokens name, all of them readers of the channel or groups of a public one's space |
| CheckMentions.OnlyNamed | internal/chat/mention_tokens.go:63-107 | a checked text tells nobody but those the author may name here |
| CheckMentions.StoredIs | internal/chat/mention_tokens.go:109-116 | there is one text the passes can end with, whenever they stop |
| Places.WhereTokensLive | internal/chat/markdown.go:123-306 | for every token between any two stretches of text without markup, in a message of one line: bare, between escaped marks, or in "**", "__", "~~", "*" or "***" it is the one mention, live where it stands, but in "__" only without a "__" of its own; in a spoiler, code and a link's words it is none, and nothing else is |
| StoredTokens.WhatIsStored | internal/chat/mention_tokens.go:38-132 | what checkMentions stores in the token's place in each of those, and that it tells the one it names exactly when the token stays |
| StoredTokens.WhoIsTold | internal/chat/mention_tokens.go:63-107 | bare: a person's token stays and tells them exactly when they read the channel and have an account, a group's exactly in a public channel of its space, a channel's, telling nobody, when it is a public one there whose name can be written |
| StoredTokens.OwnPairEnds | internal/chat/markdown.go:134-142 | a token whose name ends the underline around it, so that it is shown as text |
| Fences.OneLineFenceHides | internal/chat/markdown.go:83-87 | nothing in a fence of one line is a mention, whatever it holds, among lines without a token or a backtick |
| Fences.FenceHides | internal/chat/markdown.go:88-96 | nor in a fence over lines, closed or running to the end |
| Fences.OneLineFenceStored | internal/chat/mention_tokens.go:38-44 | a token in a fence of one line is stored as text and tells nobody |
| Fences.FenceStored | internal/chat/mention_tokens.go:38-44 | the same on any line of a fence |
| EveryoneWords.WhereWordsCount | internal/chat/mention_tokens.go:143-165 | @channel or @here, in any case, counts in every style, in a spoiler and in a link's words, and in code not; the message is stored as it is |
| EveryoneWords.PlainLineUses | internal/chat/mention_tokens.go:143-165 | a line without markup, a quote or list item or none, uses a word exactly when its text does |
| EveryoneWords.AddressHoldsNoWord | internal/chat/markdown.go:156-164 | an address holds no word, and nothing in it is markup |
| Labels.LinksAreHonest | internal/chat/markdown.go:199-244 | in every message: no link's words hold a link, so none shows one address over another, and a link with words goes to a whole http or https address |
| ThreadSummaries.RecordedIsRecounted | internal/dbgen/threads.sql.go:216-272 | adding a reply to a summary writes the count, last reply and three recent authors that counting the thread again would |
| ChannelStore.Channel.StampMessage | internal/chat/seq.go:34-47 | the row takes the channel's next position, or there is no row and no stamp |
| ChannelStore.Channel.LiveMessage | internal/chat/tombstones.go:30-42 | gone for a hidden tombstone, refused for a placeholder, else live |
| ChannelStore.Channel.TombstoneRow | internal/chat/tombstones.go:48-57 | a live row is blanked, unpinned and stamped; any other is gone |
| ChannelStore.Channel.TombstoneTopLevel | internal/chat/tombstones.go:121-134 | a root with replies stays as a placeholder, any other is hidden and the newest message read again |
| ChannelStore.Channel.TombstoneReply | internal/chat/tombstones.go:149-190 | the reply's tombstone, then the root's summary recounted or dropped, and a placeholder hidden with its last reply |
| ChannelStore.Channel.TombstoneThread | internal/chat/tombstones.go:214-242 | every live reply oldest first and then the root, each with its own position |
| ChannelStore.Channel.Send | internal/chat/messages.go:152-215 | the message, its thread's summary, the root's stamp and the newest message together, or nothing |
| ChannelStore.Channel.Edit | internal/chat/messages.go:598-617 | new text and links under one position, or nothing on a placeholder |
| ChannelStore.RecordLinks | internal/chat/links.go:129-157 | the rows of the new text's addresses, dismissed where they were |
| ChannelStore.Channel.ToggleReaction | internal/chat/reactions.go:62-85 | added if absent, removed if there, or nothing on a placeholder |
| ChannelStore.Channel.PinMessage | internal/chat/pins.go:58-80 | pinned under one position, or nothing: gone, placeholder, pinned already or full |
| ChannelStore.Channel.Unpin | internal/chat/pins.go:105-120 | unpinned under one position, or nothing |
| ChannelStore.Channel.DismissLinkPreview | internal/chat/links.go:198-211 | the link's card dismissed under one position and the rest of the message as it was, or nothing |
| ChannelStore.Channel.StampPreviewed | internal/chat/links.go:282-297 | a stamp on a live message only |
| ChannelStore.Channel.DeleteMessage | internal/chat/tombstones.go:64-91 | the tombstone of a top-level message or a reply, or nothing |
| ChannelStore.Channel.DeleteThread | internal/chat/threads.go:144-157 | the thread's tombstones, or nothing |
| ChannelStore.Channel.SweepChannel | internal/chat/retention_sweep.go:114-134 | the listed roots and their replies go, and how many rows that was |
| ChannelStore.Channel.Serve | internal/chat/seq.go:13-20 | any call at any moment leaves the channel valid and nothing told of an earlier position taken back |
| Transactions.FitsLater | internal/chat/tombstones.go:24-30 | what of a handler's check no commit in between can undo |
| LogSafety.CommitIsSafe | internal/chat/seq.go:13-20 | a transaction that commits, however stale its handler's reads, keeps the invariant and extends the log |
| LogSafety.SendIsSafe | internal/chat/messages.go:152-215 | the same for a send: summary, stamp and newest message stay exact |
| LogSafety.DeleteReplyIsSafe | internal/chat/tombstones.go:149-190 | the same for a reply's tombstone, with its root kept, recounted or hidden |
| LogSafety.DeleteThreadIsSafe | internal/chat/tombstones.go:214-242 | the same for Delete thread, also with a stale root |
| LogSafety.SweepIsSafe | internal/chat/retention_sweep.go:114-134 | the same for the one hard delete |
| Effects.CommitsWhen | internal/chat/tombstones.go:24-57 | exactly which calls commit, whatever their handlers read |
| Effects.SpendsExactly | internal/chat/seq.go:22-47 | each position goes to one row in commit order, a rollback spends none, and a row not stamped is as it was |
| Effects.CommittedIsGranted | internal/chat/messages.go:152-215 | a call of any kind that commits does what it was asked to the row, its thread, the pins and the newest message: the text and exactly the links it names, one pin more or less within the cap, the rows hidden, blank or gone; what it was not asked to change of that message stays |
| Effects.DeletedTopLevel | internal/chat/tombstones.go:117-134 | the message is blank and unpinned, and shown exactly while its thread has live replies |
| Effects.DeletedReply | internal/chat/tombstones.go:149-190 | the reply is hidden; its root stays shown unless it was a placeholder and this its last reply |
| Effects.DeletedThread | internal/chat/tombstones.go:209-242 | nothing of the thread is shown to anyone, nor pinned |
| Effects.HiddenRootIsStampedAgain | internal/chat/tombstones.go:230-235 | a placeholder read before the transaction is stamped with no visible change exactly when it was hidden since |
| Effects.SpentOnNothing | internal/chat/tombstones.go:230-235 | a run that does it: Delete thread admitted on a placeholder whose last reply then goes |
| Effects.ToggledTwice | internal/chat/reactions.go:40-42 | toggling once always changes the reactions, twice never does |
| Effects.DismissalSurvivesEdit | internal/chat/links.go:123-127 | a dismissed card stays dismissed over an edit |
| Effects.EditDismissesNothing | internal/chat/links.go:123-157 | and an edit dismisses no card that was not |
| ChannelRuns.RunIsSafe | internal/chat/tombstones.go:24-30 | in every run, with checks and commits interleaved at will, every state is valid |
| ChannelRuns.PositionsAreDistinct | internal/dbgen/channels.sql.go:295-304 | positions 1 to seq are each stamped once and no two rows share one |
| ChannelRuns.NothingChangesBelow | internal/chat/changes.go:39-43 | after a reader sees position s no row appears or changes at or below s |
| ChannelRuns.HiddenForGood | internal/chat/tombstones.go:24-42 | a hidden row never shows again, gains no reply and is never pinned, whatever was on its way |
| ChannelRuns.PlaceholderWhileReplies | internal/chat/tombstones.go:117-208 | a deleted root is readable, and has a summary, exactly while it has live replies, and the count is theirs |
| ChannelRuns.LastIsNewestShown | internal/dbgen/messages.sql.go:474-490 | the channel's last message is the newest row it shows, or it shows none |
| CatchUp.ChangesArePage | internal/dbgen/messages.sql.go:291-296 | a page holds exactly the rows past since that it reaches, in seq order |
| CatchUp.PageCovers | internal/chat/changes.go:38-57 | a full page reaches its last row, any other at least the channel seq read before it |
| CatchUp.HonestLater | internal/chat/messages.go:420-528 | a copy hydrated after its row was read is right, unless the row's seq has moved past the copy's |
| CatchUp.PageMakesExact | internal/chat/changes.go:16-20 | a merged page leaves the client exact as far as the page reaches |
| StrictMerging.StrictConverges | mobile/README.md:592-595 | if a row won only at a higher seq, the client would still be exact up to its position in every history whose events carry whole rows |
| StrictMerging.StrictLoses | web/src/core/channelLog/rows.ts:25-31 | a history with one patched copy after which such a client, a whole catch-up later, is at the channel's seq without an edit |
| CatchUp.CatchUpConverges | internal/chat/changes.go:16-58 | in every history of commits, reads, pages, events and failures the client holds exactly the server's row for each row at or below its position |
| EventPositions.CopyIsExact | internal/chat/messages.go:420-528 | a copy each of whose parts is from the row's version at its seq or a later one is the row, when it is at the row's seq |
| EventPositions.PatchOk | web/src/core/channelLog/events.ts:113-124 | an event's part patched onto a copy that was whole just before it leaves a whole copy |
| EventPositions.PatchesFit | internal/chat/reactions.go:62-106 | a reaction, a pin, an unpin and a reply's summary on its root each change one part of the row they stamp last |
| EventPositions.EventsConverge | web/src/core/channelLog/events.ts:30-43 | with the position moved by pages and by the next event, whole or patched onto a held row, the client is exact up to it in every history where no event moves it at a seq already patched |
| EventPositions.LateReloadLoses | internal/chat/messages.go:620-629 | a history where one does: an edit's event, reloaded late, takes the position past a patched copy that has not the edit |
| CatchUp.ListChanges | internal/chat/changes.go:29-58 | with anything committed between its reads: the rows query's page in order, every message honest, covering what lies up to where the client takes it to reach; exact if nothing was; the channel's seq, whether the page was full, and the floor |
| CatchUp.CatchUpPages | internal/chat/changes.go:16-58 | with nobody writing the pages end, with the client at the channel's seq and holding every row exactly |
| Paging.ClampPageSize | internal/chat/messages.go:35-40 | the fallback for a request of none or less, else the request up to the maximum |
| Paging.BeforeIs | internal/dbgen/messages.sql.go:413-420 | a page before a message misses nothing shown between its first row and it, and is all of it unless full |
| Paging.AfterIs | internal/dbgen/messages.sql.go:349-356 | the same for a page after one |
| Paging.FindCentre | internal/chat/messages.go:312-327 | a window's centre is always a row of its timeline: the message, or in a channel a thread-only reply's root; in a thread only its own replies |
| Paging.ListAround | internal/chat/messages.go:328-338 | the message is in its window, with up to half the page before it and the rest after; each half is all there is or full, and the two flags say which |
| Paging.ListMessages | internal/chat/messages.go:276-403 | for a channel or a thread, exactly when it refuses, and else the page itself: all of the line below (or above) its bound or the nearest rows up to the limit, the flags saying which; around a message, both halves |
| Paging.PageBack | internal/chat/messages.go:340-351 | paging back from the newest ends, with every message shown on exactly one page |
| Previews.CardsSame | internal/dbgen/links.sql.go:136-142 | a fetch changes a message's cards exactly if it shows that address and the card changed |
| Previews.RefetchStampsOneMessage | internal/chat/links.go:224-297 | only the message that asked is stamped, and not even that one once deleted; exactly which others' cards change without it |
| Previews.OtherCardChanges | internal/chat/links.go:224-297 | a run of two messages that link one address, where a fetch for one changes what the other shows |
| Retention.TextOrder | internal/chat/retention_sweep.go:35-45 | ids sort as text as they do as bytes |
| Retention.BelowCutoff | internal/chat/retention_sweep.go:35-45 | a version 7 id sorts below the cutoff exactly when its timestamp is before the instant |
| Retention.CutoffId | internal/chat/retention_sweep.go:37-45 | the bytes filled in place are the instant's, big-endian, and the smallest rest |
| Retention.SweptStaysBelow | internal/chat/changes.go:60-65 | with the period fixed, an id below the floor now is below every floor answered later |
| Retention.RetentionFloorId | internal/chat/changes.go:67-85 | a floor is answered exactly when a setting is read that keeps messages for some days, and it is the sweep's |
| Retention.PeriodFits | internal/instance/retention.go:23-24 | a period reaches back its whole length exactly up to 106751 days, where a duration wraps; every period a setting can hold does |
| Retention.LongerPeriodLowers | internal/chat/retention_sweep.go:47-49 | and a longer period always lowers it, as long as a duration holds it |
| Retention.OverlongPeriodRaises | internal/chat/retention_sweep.go:47-49 | the first period a duration does not hold puts the floor above now's |
| Sweeping.SweepTakesThreads | internal/chat/retention_sweep.go:111-134 | a row goes exactly when its root was listed; what stays is unchanged and keeps its root |
| Sweeping.PinnedSurvives | internal/chat/retention_sweep.go:62-76 | a pinned root and its thread stay, unless the root was listed before it was pinned |
| Sweeping.PinnedMeanwhile | internal/chat/retention_sweep.go:62-109 | a run that does it: listed, pinned, swept |
| Sweeping.SweepsCompose | internal/chat/retention_sweep.go:71-106 | two sweeps are one sweep of what both listed |
| Sweeping.Server.ListExpired | internal/dbgen/messages.sql.go:223-229 | the oldest expired rows of any channel, all of them when fewer than a batch |
| Sweeping.Server.SweepBatch | internal/chat/retention_sweep.go:79-102 | one transaction a channel, and each channel swept of its part of the batch |
| Sweeping.Server.SweepMessages | internal/chat/retention_sweep.go:62-109 | with nobody else writing, ends with nothing expired left, every channel as one sweep would leave it, and counts the rows that went |
| SweepRuns.SweepEnds | internal/chat/retention_sweep.go:71-106 | whatever commits, and whatever channels open or go, between its listings and deletes, a sweep lists no more often than there were rows older than the cutoff |
| SweepRuns.SweepMisses | internal/chat/retention_sweep.go:71-106 | once its last listing is made, every old row was there then, and its root was pinned then or is still on the list |
| SweepRuns.OnlyUnpinnedLeft | internal/chat/retention_sweep.go:71-106 | so what is expired when it is done was pinned then and has been unpinned since |
| Activity.OneRule | internal/dbgen/activity.sql.go:307-341 | an item is born read exactly when the two mark statements between them would mark it |
| Activity.KeepsSingle | internal/dbgen/activity.sql.go:358-405 | no statement leaves two unread items that should be one |
| Activity.KeepsUnseen | internal/dbgen/activity.sql.go:27-47 | no statement leaves a seen item unread, with markers moved by credentials that cover activity |
| Activity.UncoveredMoveShows | internal/chat/channels.go:432-447 | a channel marker moved without cover leaves a seen item unread exactly when it passes one |
| Activity.SeenAndUnread | internal/chat/channels.go:432-447 | a run that does it |
| Activity.UncoveredThreadMoveShows | internal/chat/thread_mutes.go:125-141 | the same for a thread's marker |
| Activity.SeenInThreadAndUnread | internal/chat/thread_mutes.go:125-141 | a run that does it |
| Activity.FeedRuns | internal/chat/activity.go:189-217 | both, over every run of sends, recordings, marker moves, deletes and sweeps |
| Activity.RefreshIsExact | internal/dbgen/activity.sql.go:358-405 | a live message's recording leaves each recipient an item about it, under a greater id, and no other waiting there |
| Activity.RefreshLosesUnseen | internal/dbgen/activity.sql.go:375-389 | a refresh leaves nothing unread exactly when its message was seen |
| Activity.NewerHidesNothing | internal/dbgen/activity.sql.go:378-386 | in one timeline, a message seen means every older one was |
| Activity.OutOfOrderLoses | internal/dbgen/activity.sql.go:375-389 | a run in which two messages are recorded in the wrong order and the newer is left unseen with nothing unread |
| Activity.ActivityStore.WriteActivityItems | internal/chat/activity.go:171-219 | one item a recipient under new ids, singly or refreshed under the place's lock; only the unread items those take over go, every other item stays as it was |
| Activity.ActivityStore.MarkChannelRead | internal/chat/channels.go:432-447 | the marker ends at or past its target, no marker goes back or moves besides, it marks read exactly the person's unread items of that channel's timeline at or before where it stands, none without a credential that covers them, and what every step keeps is kept |
| Activity.ActivityStore.MarkThreadRead | internal/chat/thread_mutes.go:125-141 | the same for a thread's items, answering where the marker ends up |
| Alerts.ResolveMentions | internal/chat/mentions.go:45-87 | never the author, nobody twice; an everyone-word that applies decides alone, @channel before @here, and not in a direct message |
| Alerts.RecordActivity | internal/chat/activity.go:36-132 | each person but the author in any of the four audiences is alerted exactly once, as the first that holds |
| ServerOwnership.LastAdminNeverFires | internal/auth/admin.go:142-164 | on an owned server the guard refuses exactly the owner and the unknown, never a last admin |
| ServerOwnership.TransferMoves | internal/auth/owner.go:23-76 | exactly which hand-overs are done: by the owner or the host, to an active admin person |
| ServerOwnership.UndoKeeps | internal/auth/registration.go:99-112 | undoing a sign-up keeps the server owned exactly when the account does not own it |
| ServerOwnership.OwnerUndone | internal/auth/registration.go:99-112 | a run that leaves a server without an owner: promoted and handed the server before the invite turns out spent |
| ServerOwnership.UndoneAtOnce | internal/auth/registration.go:92-112 | a sign-up created and undone in one go leaves the server as it was |
| ServerOwnership.StepIsSafe | internal/auth/admin.go:79-174 | every step but the undoing of the owner's sign-up, late writes included, keeps one owner, an active admin person; that one never does |
| ServerOwnership.StepTouches | internal/auth/admin.go:79-174 | each step changes one account and of it one thing, a hand-over only who owns the server, and no other step any account |
| ServerOwnership.ServerStaysOwned | internal/auth/registration.go:193-247 | in every run, from the first account up to any state there is one owner, an active admin person, exactly when no step before it undid the owner's sign-up |
| ServerOwnership.DeletedStayOut | internal/auth/admin.go:109-124 | a deleted account comes back exactly by a reactivation checked before the deletion |
| ServerOwnership.DeletedBroughtBack | internal/auth/admin.go:109-124 | a run that does it |
| ServerOwnership.EarlyLastAdminInRun | internal/auth/deletion.go:67-87 | for the account read in one state of a run and the admins counted in a later one: exactly when the early check refuses a last admin, and that its target is then no active admin or is the owner |
| ServerOwnership.RefusedAsLastAdmin | internal/auth/deletion.go:67-87 | a run in which someone demoted meanwhile is so refused |
| ServerOwnership.LockedAfterEarly | internal/auth/deletion.go:73-113 | in every state the locked half deletes the account exactly unless it owns the server by then, or is gone |
| ServerOwnership.LeftAndKept | internal/auth/deletion.go:73-113 | a run in which the early refusals let through someone the lock then refuses, who has left their spaces by then |
| ServerOwnership.Roster.CreateAccount | internal/auth/registration.go:198-247 | the first account is the admin and owns the server, no later one does |
| ServerOwnership.Roster.DemoteAccount | internal/auth/admin.go:79-91 | under the guard the target stops being an admin and nothing else changes, or a refusal and no change |
| ServerOwnership.Roster.DeactivateAccount | internal/auth/admin.go:126-134 | under the guard the target stops being active and nothing else changes, or a refusal and no change |
| ServerOwnership.Roster.DeleteAccount | internal/auth/deletion.go:43-113 | with the policy, the sign-in's age and the departure's outcome given, exactly when the account is deleted, and otherwise nothing changes |
| ServerOwnership.Roster.TransferOwnership | internal/auth/owner.go:23-76 | the owner cleared and set in one transaction, or a refusal and no change |
| SpaceOwnership.CapNeverGrantsOwner | internal/chat/permissions.go:267-272 | an invite's role is capped to what its maker holds and is never the owner's |
| SpaceOwnership.NobodyActsOnOwner | internal/chat/permissions.go:304-312 | no actor, inherited admin or not, may change or remove the owner; the owner may anyone else |
| SpaceOwnership.CheckedCallIsHarmless | internal/chat/members.go:54-227 | checked and written in one step, no call costs a space its owner, and only a transfer or hand-over changes who it is |
| SpaceOwnership.WriteKeepsOwner | internal/chat/members.go:54-227 | checked earlier, a write keeps the space owned exactly under a condition on the space as it is then |
| SpaceOwnership.WriteDoes | internal/chat/members.go:54-227 | what each call writes to those it is about, each keeping when they joined, and that nobody else's membership changes |
| SpaceOwnership.TransferInBetween | internal/chat/members.go:132-146 | a transfer between a check and its write does cost the space its owner |
| SpaceOwnership.SpaceStaysOwned | internal/chat/spaces.go:25-75 | from its creation on a space has exactly one owner, the one owner_id names |
| SpaceOwnership.BusySpaceStaysOwned | internal/chat/members.go:54-227 | with checks and writes apart, in every run: owned in every state exactly when each write was harmless as it landed |
| SpaceOwnership.HandOverInBetween | internal/chat/departure.go:60-85 | a run in which a hand-over overtaken by a transfer names an owner who is no member |
| SpaceOwnership.FindHeir | internal/dbgen/members.sql.go:259-273 | the admin who joined first, or none when there is no admin |
| SpaceOwnership.Directory.TransferOwnership | internal/chat/spaces.go:392-412 | all of it or none: the target owns the space, the old owner is an admin and every other member is as they were, or nothing changed |
| SpaceOwnership.Directory.HandOverSpace | internal/chat/departure.go:60-85 | the heir owns the space, joined first if need be, every other member is as they were, and when an overtaken hand-over leaves it unowned |
| SpaceOwnership.Directory.RemovePerson | internal/chat/departure.go:19-48 | each owned space goes to its longest-serving admin or the fallback, the person is in no space, every other member of every space is as they were, and every space still has its owner; refused, nobody has left |
| Reordering.ReorderedIds | internal/chat/channels.go:301-335 | grants exactly the requests that name known channels once and every joined one; a permutation with the named in the order asked and every other in its place |

## Left out

- CatchUpConverges: does not drop rows below the retention floor, which is the client's own rule; what the floor says about swept rows is in `Retention`.
- EventsConverge: a deletion's event, which the client turns into a tombstone made from what it holds, is not one of its events; nor is the first page, which sets the position with only part of the rows.
- ViewOf: a message's quote, author name, expired files and link cards are read from elsewhere and are not part of the stamped row; cards are in `Previews`.
- ServerStaysOwned: the table's own checks (one owner, an active admin person) are not modelled, since the code never relies on them to refuse.
- Parse: UTF-8 white space is the fixed list of characters the parser's Unicode test accepts; `plainText` and its wording are not modelled.
- Inlines: a style's node says here whether "||" made it, which the source's does not; only what is claimed of live mentions reads it.
- WhereTokensLive: one thing around the token, in a line that holds no other markup and no address; of markup within markup only `ParseSound` and `CheckMentions` speak, which are about every message.
- CheckMentions: usernames and handles are taken as saved under the naming rules they are saved under; reading the database can fail in the source, and then nothing is stored.
- ChannelStore.Channel.Send: mentions, attachments and the checks of who may post are decided before the transaction and come in as its arguments; ids are taken as minted in order under the channel's lock.
- RecordActivity: a query that fails tells nobody in the source; muting and blocking come after and only take people away.
- SweepMessages: nothing else commits during a whole sweep in the method; `SweepRuns` has the sweep's steps among everyone else's, as a state machine.
- UpsertUnreadActivityItems, and every other statement: taken as atomic, so races inside one statement's snapshot are below the model; the place's lock is what makes that so for a refresh.
- Search, voice, files, webhooks, sign-in, email, configuration: not modelled.
- Connect handlers, protobuf, event publishing, logging and Postgres itself: only the state change is kept, all of a transaction or none.
- Thread mutes, and read markers set on a hidden root: their handlers check outside any transaction.
- Deleting a whole channel or space: it removes everything the model speaks of.
