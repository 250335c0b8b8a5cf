# gmkit, modelled and verified in Dafny

gmkit keeps a local archive of a Google Messages account. A Go daemon owns the
connection to the phone, an approval queue for outgoing messages and a SQLite store;
command-line clients and a Rust terminal client talk to it over JSON-RPC on a unix
socket. This project models the parts of it whose behaviour is hard to see by reading
one function, and proves what they keep.

`dafny verify dfyconfig.toml` checks everything.

## How it is laid out

Where the program changes things step by step, a class has the program's fields and its
methods are proved to do to the whole state what a function says; the lemmas are about
that function. Where several goroutines or processes meet, a state machine has one
action for each atomic step and a run is any sequence of actions, so a statement about
every run is one about every interleaving. An action that cannot happen leaves the
state as it is. The environment (phone, store failures, clock, uuids, the order of
replies) is chosen freely by the actions.

| file | what it is about |
|---|---|
| `approvals.dfy` | the approvals table and its one conditional update |
| `send_protocol.dfy` | any number of `send.text`, `approvals.approve`, `approvals.deny` and other lock-taking handlers at once |
| `send_account.dfy` | the exact account of that protocol: how often a row is sent, and when a denied one was |
| `broadcasts.dfy` | how often and in which order that protocol broadcasts a row's request and its resolution |
| `send_content.dfy`, `send_outcomes.dfy`, `send_paths.dfy` | what its rows, calls and replies hold against the requests that came in, how requests end, and what one does that is left alone |
| `handlers.dfy` | the same handlers as written, each shown to take the protocol's steps |
| `civil.dfy` | the day-number to date conversion |
| `like.dfy` | LIKE patterns and their escaping |
| `fts_query.dfy`, `search_terms.dfy` | terms, quoting and the three tiers of message search; which terms and syntax a query has |
| `wrap.dfy`, `placement.dfy`, `highlight.dfy`, `excerpt.dfy` | text wrapping, where a character ends up in it, highlighting and excerpts |
| `rpc_client.dfy`, `rpc_replies.dfy` | request and reply over one connection; the way of a reply back to its call |
| `idle_timer.dfy` | the timer that ends an idle daemon |
| `subscribers.dfy` | the event subscriber list |
| `archive.dfy`, `sync.dfy`, `sync_rows.dfy` | the stored rows, the full-text mirror, the pump that writes them, and what the rows then say |
| `message_context.dfy` | the messages around an anchor |
| `backfill.dfy`, `backfill_pages.dfy` | paging through old messages, and what the cursors and stored times make of it |
| `cookies.dfy` | reading a Cookie header and keeping the Google cookies |
| `tui.dfy`, `tui_app.dfy`, `tui_effects.dfy`, `tui_runs.dfy` | the terminal client: its updates as functions and as an object, what they mean, and what whole runs keep |
| `tui_calls.dfy`, `tui_keys.dfy`, `tui_events.dfy` | which calls each key and event stands for, and what each does to every part of the screen |

## Where the code differs from what it says

The model follows the code; each of these has a lemma.

- A send can happen twice. When the outcome of a delivered message cannot be written to
  its row, the row stays pending and can be approved again (`FailedWriteSendsTwice`).
  `TimesSent` counts the sends exactly; a row is sent twice if and only if a call for it
  starts after the outcome of an earlier one could not be written (`SentTwiceIff`).
- A denied message may have gone out, without any failure, because `deny` takes no lock
  (`DeniedCanBeSent`). Once no handler stands between its recheck and its call, a denied
  row was sent if and only if some recheck of it passed before the deny
  (`DeniedWasSentIff`). If outcomes get written, that deny came before the sender tried to
  record (`DeniedOnlyInsideTheWindow`); if not, it can also come after
  (`DeniedAfterAFailedRecord`).
- A row's `approval.requested` can be broadcast after its `approval.resolved`
  (`RequestedAfterResolved`): exactly if, at the broadcast of the resolution, the handler
  that inserted the row has yet to announce it (`WrongOrderIff`). A row that nobody
  approves or denies before its request was broadcast never has the wrong order
  (`RequestedFirst`).
- The idle channel is documented to close once the server has been free of clients for
  the idle time. A client that comes and goes while a fired timer waits for the lock, or
  while a dropped connection has yet to arm its timer, can cut that time short; these are
  the only ways (`EarlyCloseIff`). It is assumed that idle exit is on, with a positive time.
- A waiting function is documented to remove only its own event handler. It removes what
  is at the index it remembers, which is its own exactly if nothing at that index or
  below was removed meanwhile (`OwnHandlerIff`); nested waits are safe
  (`NestedRunsAreExact`).
- `SearchContacts` leaves `_` unescaped, so it is a literal search only for queries
  without `_` (`ContactsPatternIsExactIff`).
- Replaying events changes no row and no event time, but it does move the time of the last
  connection, which is a reading of the clock (`ConnectTimeMovesIff`).
- A backfill counts records that the store refuses, and counts one message twice if it is
  listed twice (`CountedButRefused`, `CountedTwice`). Its count is the number of different
  messages it leaves in the store if and only if every fetched message with an id has a
  conversation id and no id was fetched twice, and the number the store gains if and only
  if moreover none of them was there before (`ProcessedAreStoredIff`).
- A backfill fetches the stretch just below its start if and only if the phone answers no
  fetch but the last with messages and a nil cursor (`StretchIff`); otherwise it starts over
  from the newest ones and fetches what it has (`NilCursorRepeats`). It starts at some
  oldest message: messages of the same time before that one are the only ones it may find
  stored (`NothingStoredBelowIff`).
- An excerpt is cut around the earliest match, but after wrapping the lines that are kept
  may end before it (`TheMatchCanBeCut`). A character is shown if and only if the line it
  falls on, reckoned from the lengths of the words, is among those kept (`SeenIff`). A
  match is surely shown if a word's end comes within the width, less a third of it and 12,
  behind its start (`ExcerptLines`).
- Opening a message hit does not make its chat the current one until its surroundings
  arrive, so what is written at once goes to the chat that was open before
  (`HitRecipientIff`, `WrongRecipientHappens`).
- A cookie whose name itself starts with `cookie:` loses that part when it comes first in
  a header; everything else reads back as written (`ReadsBackIff`).
- In the terminal client, hits of the previous search can stay on screen for a query of
  fewer than two characters, which is never searched (`StaleHitsIff`,
  `StaleHitsHappen`).

## Model

| member | source | states |
|---|---|---|
| Approvals.Store.CreateApproval | internal/store/approvals.go:40-62 | a new row is pending, with no outcome, whatever status it was given; missing fields and a taken id are refused and change nothing |
| Approvals.Store.GetApproval | internal/store/approvals.go:64-75 | the row as stored, or none |
| Approvals.Store.ResolveApproval | internal/store/approvals.go:115-140 | the update takes effect only on a pending row; a missing and a resolved row are told apart and left alone |
| Approvals.RowsAreStable | internal/store/approvals.go:11-19 | over any run of writes a row stays, never changes what it asks for, and once terminal never changes at all |
| Approvals.LeavesPendingOnce | internal/store/approvals.go:115-140 | however many resolves are tried, exactly one succeeds if the row left pending during the run, and none otherwise |
| Approvals.RowsSayWhatWasWritten | internal/store/approvals.go:40-140 | after any writes a new row says what its one insert asked for, and when; once resolved, also what its one successful resolve said, and when |
| SendProtocol.NeverSentTwice | internal/rpc/handlers.go:829-877 | in every interleaving in which the outcomes of phone calls get written, whatever else of the store fails, SendText is started at most once per approval, in approve and in direct mode |
| SendProtocol.FailedWriteSendsTwice | internal/rpc/handlers.go:865-867 | there is a run, with one failed write, in which an approval is sent twice |
| SendProtocol.DeniedOnlyInsideTheWindow | internal/rpc/handlers.go:837-906 | if a row that ends denied was sent, the deny came after the sending handler's recheck and before any outcome for the row got through or lost; if none failed to be written, before any attempt to record |
| SendProtocol.ResolvedFirstMeansNeverSent | internal/rpc/handlers.go:837-843 | a row resolved before any recheck of it has passed is never sent, at any later point of the run |
| SendProtocol.SentMeansDelivered | internal/rpc/handlers.go:850-867 | a row that ends sent had a phone call with its own conversation, body and reply id, answered with the message id it holds; further deliveries need failed writes |
| SendProtocol.AnnouncedOnceAndTruly | internal/rpc/handlers.go:868-872 | at most one approval.resolved is broadcast per approval, with the terminal status that the row keeps |
| SendProtocol.SendsAreAuthorised | internal/rpc/handlers.go:739-777 | in mode off nothing is sent; in mode approve only on an approve request for that id; and every call sends exactly what its row asks for |
| SendProtocol.PhoneCallsNeverOverlap | internal/rpc/handlers.go:833-835 | at most one handler holds the lock, so phone calls never overlap |
| SendProtocol.TerminalRowsNeverChange | internal/store/approvals.go:11-19 | from any point of a concurrent run on, a terminal row never changes and no row changes what it asks for |
| SendProtocol.RunKeepsInv | internal/rpc/handlers.go:731-906 | the invariant behind the statements above holds after every action of every run |
| SendContent.RowsHoldTheirRequest | internal/rpc/handlers.go:745-778 | in every run a row that was not there before has one request behind it, which asked for the conversation, text, reply and asker that it holds, and for the conversation, text and reply of every phone call made for it |
| SendContent.CallsCarryTheirRequest | internal/rpc/handlers.go:774-854 | in every run a call that a handler of send.text makes carries what its own request asks for |
| SendContent.RepliesHoldTheirRequest | internal/rpc/handlers.go:762-778 | a row that send.text answers with holds what its own request asks for |
| SendOutcomes.RowsKeepTheirOutcome | internal/rpc/handlers.go:856-891 | in every run a resolved row keeps why: a sent one its message id and no error, a failed one the phone's own words, a denied one the reason that the request gave; a new row that is not resolved has neither |
| SendOutcomes.RepliesAreTrue | internal/rpc/handlers.go:731-906 | in every run a reply is true and stays so: a row from approve or a direct send is there as told, sent, and one from deny denied; and each kind of refusal comes only for its reason |
| SendPaths.ApproveSends | internal/rpc/handlers.go:803-877 | from any point of any run at which the lock is free, an approve request for a pending row, left alone, sends that row's message, records and announces the phone's answer, and replies with it |
| SendPaths.DenyDenies | internal/rpc/handlers.go:879-906 | from any point of any run a deny request for a pending row, left alone, denies it for its reason, announces that and replies with the row |
| SendPaths.TextIsQueued | internal/rpc/handlers.go:731-770 | from any point of any run in approve mode a send.text request, left alone, leaves a pending row with what it asks for, broadcasts it and replies with it |
| SendPaths.TextIsSent | internal/rpc/handlers.go:731-778 | in direct mode, with the lock free, it also sends it at once, and records, announces and replies with the outcome |
| SendPaths.RefusalsAreImmediate | internal/rpc/handlers.go:736-900 | from any point of any run a request is refused at once, and changes nothing, if it lacks what it needs, or would send in mode off, or names a row that is not there or is resolved, with the error for the first of these that applies |
| SendAccount.TimesSent | internal/rpc/handlers.go:833-877 | the exact number of starts for a row: one for each outcome that could not be written, and one more if a call is under way or an outcome got through or lost |
| SendAccount.SentTwiceIff | internal/rpc/handlers.go:865-867 | a row is sent at least twice if and only if a call for it starts after a failed outcome write |
| SendAccount.DeniedWasSentIff | internal/rpc/handlers.go:837-906 | a denied row none of whose handlers is about to call was sent if and only if a recheck of it passed before the deny |
| SendAccount.DeniedCanBeSent | internal/rpc/handlers.go:837-906 | a run without failures in which a denied message is delivered |
| SendAccount.DeniedAfterAFailedRecord | internal/rpc/handlers.go:865-906 | a run in which the deny comes after the sender's attempt to record, which failed |
| Broadcasts.RequestedOnce | internal/rpc/handlers.go:759-770 | a row's request is broadcast at most once, and only for a row made in the run |
| Broadcasts.WrongOrderIff | internal/rpc/handlers.go:751-770 | in every interleaving, with any failures, a row's request is broadcast after its resolution if and only if, when the resolution is broadcast, its maker stands between insert and announcement |
| Broadcasts.RequestedFirst | internal/rpc/handlers.go:759-770 | in every run in which a row is neither approved nor denied before its request was broadcast, that broadcast comes first; in approve mode there is no resolution without it |
| Broadcasts.RequestedAfterResolved | internal/rpc/handlers.go:759-770 | a run without failures in which a row's two broadcasts come in the wrong order |
| SendAccount.RunKeepsBooks | internal/rpc/handlers.go:731-906 | the account of every row, the fate of every recheck and the order of starts and failures hold after every action |
| Handlers.Server.HandleSendText | internal/rpc/handlers.go:731-779 | run alone, the handler ends with the reply, rows, calls and broadcasts that its protocol steps end with, on every path; the new row, the call and the row in the reply are what its request asks for |
| Handlers.Server.HandleApprovalsApprove | internal/rpc/handlers.go:803-827 | the same for approve, including the refusals before the lock |
| Handlers.Server.PerformApprovedSend | internal/rpc/handlers.go:833-877 | the same for the section under the lock, which is always released |
| Handlers.Server.RecordOutcome | internal/rpc/handlers.go:854-876 | the same from the phone's answer on: status, error and message id are recorded, then announced |
| Handlers.Server.HandleApprovalsDeny | internal/rpc/handlers.go:879-906 | the same for deny, which neither takes nor releases the lock |
| Handlers.AloneIsARun | internal/rpc/handlers.go:731-906 | such a stretch of steps is a run of the protocol, so what holds of every run holds of it |
| Civil.CivilFromDays | gmtui/src/model.rs:198-209 | for every day number the result is a valid proleptic Gregorian date, and counting the days to it gives the number back |
| Civil.CivilIsLeftInverse | gmtui/src/model.rs:198-209 | every valid date is the conversion of its own day number |
| Civil.CivilIsIncreasing | gmtui/src/model.rs:198-209 | later days give later dates, and only they do |
| Civil.CivilStep | gmtui/src/model.rs:197-209 | consecutive numbers give consecutive calendar days, and day 0 is 1970-01-01 |
| Civil.DaysToYearClosed | gmtui/src/model.rs:200-203 | counting leap years one by one agrees with the quotients by 4, 100 and 400 |
| Civil.DayNumberMonotone | gmtui/src/model.rs:198-209 | day numbers follow the calendar order of valid dates |
| Civil.BadgeDateIsTheDayOfTheMessage | gmtui/src/model.rs:174-195 | a badge is a date exactly for messages 31 days old or older, and it is the UTC day of the message |
| Civil.BadgeIsTheAge | gmtui/src/model.rs:174-195 | a badge of seconds, minutes, hours or days is the age in that unit, rounded down, and each unit is used for its own span |
| Like.EscapeIsPerCharacter | internal/store/search.go:383-388 | the three replacements in a row are one escape of each special character, and so for the two of the contact search |
| Like.FindPatternIsExact | internal/store/search.go:226-232 | the LIKE pattern matches a text exactly if the query occurs in it literally, ASCII case folded, for all queries and texts |
| Like.FindConversationsIsExact | internal/store/search.go:226-244 | a conversation is found exactly if the query, or a matched contact's id in quotes, occurs in what its row says |
| Like.FoldIsAscii | internal/store/search.go:226-232 | LIKE folds the 26 ASCII letters, in order, and nothing else |
| Like.EscapedIsLiteral | internal/store/search.go:383-388 | an escaped text on its own matches that text and no other, ASCII case folded |
| Like.ContactsPatternMeaning | internal/store/contacts.go:93-98 | the contact pattern treats `_` as any character, and accepts at least what a literal search accepts |
| Like.ContactsPatternIsExactIff | internal/store/contacts.go:93 | it agrees with the literal search on all texts if and only if the query has no `_` |
| FtsQuery.JoinQuoted | internal/store/search.go:206-212 | the loop gives the terms quoted, with quotes inside doubled, and the separator between them |
| FtsQuery.QuotingIsUndone | internal/store/search.go:206-212 | reading the joined query as FTS5 gives back the same terms in order, joined by AND or by OR, whatever characters they hold |
| FtsQuery.AllTermsNeeded | internal/store/search.go:56-61 | a text satisfies the space-joined query exactly if it contains every term |
| FtsQuery.AnyTermEnough | internal/store/search.go:71-73 | a text satisfies the OR-joined query exactly if it contains some term |
| FtsQuery.SearchableTerms | internal/store/search.go:171-185 | the loop gives the trimmed pieces that are worth searching for, as they were written, in order |
| FtsQuery.TermsAreIdempotent | internal/store/search.go:171-185 | the terms of the joined terms of a query are its terms |
| FtsQuery.SearchMessagesRich | internal/store/search.go:43-81 | the branches run the tiers in their order, and over every index that answers quoted terms exactly the result is what is meant: an accepted query gives its hits, or, if it has none, is plain and has two terms or more, the messages with some term; a rejected one as in FallbackMeaning |
| FtsQuery.TierOrder | internal/store/search.go:43-81 | the query is tried verbatim first; the OR tier runs at most once, last, and never for explicit FTS syntax |
| FtsQuery.SearchNeverFails | internal/store/search.go:43-81 | over an index that takes quoted terms, plain text never gives an error |
| FtsQuery.FallbackMeaning | internal/store/search.go:49-78 | a rejected query without terms finds nothing; any other finds the messages with every term if there are any or if it is deliberate syntax, else those with some term |
| FtsQuery.AcceptedMeaning | internal/store/search.go:48-78 | an accepted query gives its hits if there are any, if it is deliberate syntax or if it has at most one term; otherwise exactly the messages with some term |
| SearchTerms.TermsIff | internal/store/search.go:171-186 | the terms of a query are what is left of its fields without the punctuation at their ends, of three characters or more and no stopword in lower case |
| SearchTerms.SyntaxIff | internal/store/search.go:191-202 | a query is deliberate syntax exactly if one of the special characters occurs in it or a capital operator stands alone between spaces |
| Wrap.WrapText | gmtui/src/ui.rs:985-1021 | at least one line, none over the width, each a piece of the text, together exactly its words in order with only over-long words cut, and no line ended early |
| Wrap.BreakWord | gmtui/src/ui.rs:1000-1011 | an over-long word is cut into full lines and a last piece that is not empty |
| Wrap.NothingLost | gmtui/src/ui.rs:985-1021 | the non-space characters of the lines are those of the text, in order, none lost or repeated |
| Wrap.ShortWordsStayWhole | gmtui/src/ui.rs:1000-1015 | a word that fits a line is never cut |
| Highlight.HighlightSpans | gmtui/src/ui.rs:557-590 | the spans spell the text, mark what the scan marks, none is empty and neighbours differ in style |
| Highlight.OccurrenceIff | gmtui/src/ui.rs:547-554 | a term occurs at a place exactly if the text splits into what is before the place, the term and what follows |
| Highlight.MatchLenMeaning | gmtui/src/ui.rs:547-554 | a length is given exactly if some term occurs there, and is that of the first such term of the list |
| Highlight.MarkedIsInsideATerm | gmtui/src/ui.rs:575-587 | every highlighted character is inside an occurrence of a term |
| Highlight.OccurrenceIsMarked | gmtui/src/ui.rs:575-587 | the first character of every occurrence of every term is highlighted |
| Highlight.NormalSpansAreUnique | gmtui/src/ui.rs:557-590 | text and marks leave only one way to make such spans |
| Highlight.FirstMatch | gmtui/src/ui.rs:606-607 | the earliest place at which a term occurs, or none |
| Highlight.ExcerptWindow | gmtui/src/ui.rs:594-618 | the window is within the body and as long as its budget or the rest of the body; it begins behind the nearest space ahead of its place, or 12 characters ahead if there is none; with at least one line it holds the start of the earliest match |
| Excerpt.ExcerptLines | gmtui/src/ui.rs:594-620 | the kept lines are the first of the wrapped window, fit, and show its first non-space characters in order, all of them if no line was cut off; the window holds the start of the earliest match, which is surely shown if a word's end comes soon enough behind it; an empty body has no lines |
| Placement.LineOfIs | gmtui/src/ui.rs:985-1021 | each non-space character of a wrapped text is on the line reckoned from the lengths of the words before it, its own and the width |
| Excerpt.SeenIff | gmtui/src/ui.rs:617-620 | a character of the window is shown if and only if that line is among the first max_lines |
| Excerpt.EarlyIsSeen | gmtui/src/ui.rs:617-620 | with at least one line, a character with a word's end behind it within the width is always shown |
| Excerpt.TheMatchCanBeCut | gmtui/src/ui.rs:606-620 | a body, width and number of lines for which the window has the match and the kept lines do not |
| RpcClient.Client.Register | internal/rpc/client.go:90-97 | a closed client registers nothing; an open one makes an empty reply channel for the id |
| RpcClient.Client.Unregister | internal/rpc/client.go:98-102 | only the call's own id is taken out of the pending ones |
| RpcClient.Client.Drain | internal/rpc/client.go:172-179 | closes exactly the channels of the pending calls, and leaves none pending |
| RpcClient.RepliesReachTheirCalls | internal/rpc/client.go:71-130 | in every run a call that returns a reply returns what the server said to its id, in whatever order replies come; that replies do come back is RpcReplies.ReplyComesBack |
| RpcClient.ReaderNeverBlocks | internal/rpc/client.go:162-168 | the reader's send always finds an open channel with room |
| RpcClient.AnsweredOnce | internal/rpc/server.go:281-294 | each id is in one place at most on its way, and never on its way to be answered again |
| RpcClient.AnswersStand | internal/rpc/server.go:281-294 | from any point of a run on, what was said to an id stays said |
| RpcClient.NobodyIsLeftWaiting | internal/rpc/client.go:170-180 | once the reader has ended nothing is pending, every waiting call can take its reply or see the close, and new calls are refused |
| RpcClient.ChannelsCloseOnlyAtTheEnd | internal/rpc/client.go:112-116 | a call is told that the connection is gone only after the reader has ended |
| RpcClient.BufferedReplyIsTaken | internal/rpc/client.go:109-129 | a reply already in the channel is what the call gets, even if the connection has closed since |
| RpcClient.RunKeepsInv | internal/rpc/client.go:71-182 | the invariant of every id, from request to reply, holds after every action |
| RpcReplies.ReplyComesBack | internal/rpc/client.go:104-170 | from every reachable state in which a call is ready to write and the reader has not ended, the call returns what the server answers to it, whatever other calls, replies, cancellations and closing come between the steps of the exchange |
| RpcReplies.ReplyOnTheWireArrives | internal/rpc/client.go:161-170 | wherever a reply is on the wire for a waiting call and the reader reads, reading and delivering it makes the call return what was answered |
| RpcReplies.CallsEnd | internal/rpc/client.go:71-114 | in every reachable state a new call has a new id, is ready after registering with an open client and refused by a closed one, and returns as failed or cancelled if it is; a returned call has left nothing pending, and a reply that comes for it changes only the wire |
| RpcReplies.EndReachesEveryone | internal/rpc/client.go:170-180 | in every reachable state the end of the input ends the reader, a waiting call without a reply is told so, and no new call begins |
| RpcReplies.StaysOpen | internal/rpc/client.go:47-182 | in every run the client stays open and its reader alive as long as nobody closes it and the input goes on |
| RpcReplies.FirstCall | internal/rpc/client.go:33-97 | a connection starts open with its reader reading, and its first call is ready after registering |
| IdleTimer.Server.Accept | internal/rpc/server.go:187-193 | registers the connection and stops the timer |
| IdleTimer.Server.DropConn | internal/rpc/server.go:244-253 | removes the connection and says whether it was the last |
| IdleTimer.Server.ArmIdleTimer | internal/rpc/server.go:120-134 | replaces whichever timer there was by one that ends after the idle time |
| IdleTimer.Server.OnTimer | internal/rpc/server.go:126-133 | closes the channel only if there is no connection and it is not closed yet |
| IdleTimer.ClosesOnce | internal/rpc/server.go:126-133 | in every interleaving the channel is closed at most once, and exactly if idleFired is set |
| IdleTimer.NeverClosesOnAClient | internal/rpc/server.go:117-133 | only a timer callback closes the channel, and never while a connection is registered |
| IdleTimer.NoLostWakeup | internal/rpc/server.go:120-134 | without connections, and before it has fired, a timer is armed, a callback waits, or a drop is about to arm one |
| IdleTimer.IdleEndsInAClose | internal/rpc/server.go:98-134 | from every reachable state without connections, if none comes, the channel gets closed |
| IdleTimer.UnvisitedCloses | internal/rpc/server.go:98-134 | a server that nobody visits closes its channel when the idle time has passed, and not before |
| IdleTimer.EachOnce | internal/rpc/server.go:120-134 | over any run the timer is armed once for each time the last client leaves, and each firing brings one callback, bar those still to come |
| IdleTimer.ClientsAreInside | internal/rpc/server.go:187-253 | in every run the registered connections are those that came and have not gone, and a timer fires only when due, and once |
| IdleTimer.UnracedIsNeverEarly | internal/rpc/server.go:113-134 | if no connection is let in while a drop is about to arm or a callback waits, the channel never closes before the full idle time |
| IdleTimer.EarlyCloseIff | internal/rpc/server.go:113-134 | a visit to a reachable idle server can end in an early close if and only if a drop was about to arm or a callback waited when it began |
| IdleTimer.EarlyCloseExample | internal/rpc/server.go:126-133 | such a run, with a fired timer waiting for the lock |
| Subscribers.Client.Watch | internal/gm/gm.go:123-130 | the handler goes to the end and its index is remembered |
| Subscribers.Client.Unsubscribe | internal/gm/gm.go:309-315 | takes out what is at the index, if anything is |
| Subscribers.Client.Dispatch | internal/gm/gm.go:422-427 | every handler gets the event once, in the order of registration |
| Subscribers.OwnHandlerIff | internal/gm/gm.go:123-139 | a wait takes out its own handler, and only that, if and only if nothing at its index or below was taken out meanwhile |
| Subscribers.EndsOnce | internal/gm/gm.go:132-139 | in every run a wait takes out at most one handler, ends once, and is open only after it began |
| Subscribers.NestedRunsAreExact | internal/gm/gm.go:293-325 | if each wait ends before those that began earlier, removal by index is removal by name throughout |
| Subscribers.OverlapRemovesAnother | internal/gm/gm.go:132-139 | two overlapping waits that take out a third party's handler and leave their own |
| Subscribers.SharedIndexRemovesAnother | internal/gm/gm.go:309-315 | a wait can lose its handler to another that remembers the same index |
| Archive.Store.UpsertConversation | internal/store/conversations.go:28-60 | an empty id is refused; otherwise the row is overwritten, except that its last message time only grows |
| Archive.Store.UpsertMessage | internal/store/messages.go:38-89 | an empty id is refused; otherwise the conversation is made if absent, the message overwritten, and the mirror row replaced by the triggers |
| Archive.Store.UpsertContact | internal/store/contacts.go:33-64 | an empty id is refused; otherwise the row is overwritten |
| Archive.Store.MarkSync | internal/store/store.go:100-113 | both times are maxima; the activity time is the clock's |
| Archive.Store.TouchSync | internal/store/store.go:117-126 | only the activity time moves, and only forward |
| Archive.ArchiveStaysValid | internal/store/schema.go:89-102 | after any writes the mirror has exactly one row per message with its present body or the empty one, and every message has its conversation |
| Archive.Store.SearchOnce | internal/store/search.go:83-132 | the result is the newest of the messages that a direct filter finds, newest first, each once, as many as the limit allows |
| Archive.MirrorSearchIsDirect | internal/store/search.go:83-132 | the join with the mirror and the filter of the messages alone give the same set, with no hit missing, stale or doubled |
| Archive.DirectIff | internal/store/search.go:83-110 | which messages a search is after: those whose text matches, a missing body being empty, unless of another conversation, before the first moment or after the last |
| Archive.LastMessageWins | internal/store/messages.go:57-84 | after any writes a message row is what the last accepted write to its id said, or what it was |
| Archive.LastContactWins | internal/store/contacts.go:42-60 | the same for contacts |
| Archive.LastConversationWins | internal/store/conversations.go:38-55 | a conversation row has the fields of the last write and the latest of all times |
| Archive.RowsHoldWhatIsWritten | internal/store/conversations.go:28-60 | a write is taken exactly if it has its ids; a row then holds what was written field by field, with gm for a missing platform and an empty list for missing participants; times are the later of the one before and the new one |
| Archive.RowsAreDated | internal/store/messages.go:57-84 | after any writes a conversation, message or contact row is dated by the last write that touched it |
| Archive.MessageMakesItsChat | internal/store/messages.go:38-56 | a message of an unknown conversation makes a row for it with nothing but its id; a known one is left alone |
| Archive.EventTimeIsLatest | internal/store/store.go:100-113 | the event time is the latest of those marked and the one before |
| Archive.ReplayChangesNothing | internal/store/conversations.go:42-52 | writing a whole sequence a second time, at any clock readings, changes no row, no mirror row and no event time of a valid archive |
| Archive.ConnectTimeMovesIff | internal/store/store.go:104-107 | a run moves the connection time if and only if it marks a sync later than any before |
| Sync.UnitsAreToldApart | internal/sync/sync.go:375-382 | for times from 1973 to 5138 milliseconds and microseconds of one instant give the same stored time |
| Sync.BodyIff | internal/sync/sync.go:231-233 | a message has a body exactly if one of its parts has text |
| Sync.Pump.Handle | internal/sync/sync.go:53-85 | every event leaves the archive as its writes do, in their order, and the first fatal error is kept |
| Sync.Pump.OnClientReady | internal/sync/sync.go:134-146 | the snapshot's conversations are written in order, nil ones skipped, and then the sync is marked |
| Sync.Pump.OnConversation | internal/sync/sync.go:167-183 | a conversation without id writes nothing; otherwise the row and then its participants that have an id |
| Sync.Pump.OnMessage | internal/sync/sync.go:212-260 | a message with both ids is stored with its own sender, status, direction, milliseconds, joined texts, first attachment and reply; the sync is marked only if it is live and the store took it |
| Sync.Pump.ImportMessages | internal/sync/sync.go:122-132 | all listed messages are written as old ones; the count is of those with an id |
| Sync.Pump.ImportContacts | internal/sync/sync.go:95-118 | the contacts with an id are written, and counted |
| Sync.CountedAreAcceptedIff | internal/sync/sync.go:122-132 | the count of an import is the number of writes the store accepts if and only if every message with an id has a conversation id; it is never less |
| Sync.CountedAreStoredIff | internal/sync/sync.go:122-132 | it is the number of different messages left in the store if and only if moreover no id is listed twice, and the number the store gains if and only if none was there before |
| Sync.CountedTwice | internal/sync/sync.go:122-132 | an import that counts two messages and stores one |
| Sync.CountedButRefused | internal/sync/sync.go:122-132 | an import that counts one message and stores none |
| Sync.ReplayedEventsChangeNothing | internal/sync/sync.go:53-85 | replaying a whole history of events, at whatever times, changes no row of a valid archive |
| Sync.HistoryIsNotFreshness | internal/sync/sync.go:120-132 | importing history leaves all three sync times alone |
| Sync.LiveMessageIsFreshness | internal/sync/sync.go:248-266 | a live stored message raises the event time to at least its own, an old, refused or unidentified one does not; a token refresh never does |
| SyncRows.MessagesSayTheLast | internal/sync/sync.go:212-260 | after any events a message row agrees, field by field, with the last event that brought its id: sender, status, direction, milliseconds, texts joined by newlines, first attachment, reply; and is as it was if none did |
| SyncRows.ImportsSayTheLast | internal/sync/sync.go:122-132 | the same for the last listed message of an import |
| SyncRows.ConversationsSayTheLast | internal/sync/sync.go:134-183 | after any events a conversation row agrees with the last description of it, alone or in a snapshot, and is dated by the latest of all |
| SyncRows.PeopleSayTheLast | internal/sync/sync.go:176-207 | after any events a contact row agrees with the last description of the person in any conversation, the full name before the first name |
| SyncRows.EntriesSayTheLast | internal/sync/sync.go:95-118 | after the address book came in, a contact row agrees with the last entry of its id, the first number before the second |
| MessageContext.Query | internal/store/messages.go:208-231 | the keyset query's rows: beyond the anchor, nearest first, none left out nearer than one given, at most the limit |
| MessageContext.RowsAreConsecutive | internal/store/messages.go:208-219 | row k of such an answer is the k-th message out from the anchor |
| MessageContext.AnswerLength | internal/store/messages.go:208-219 | an answer is short of its limit only at the end of the conversation |
| MessageContext.ReverseInPlace | internal/store/messages.go:232-235 | the swap loop reverses the rows |
| MessageContext.GetMessageContext | internal/store/messages.go:196-263 | the result is the slice of the conversation, ordered by time and id, from before places ahead of the anchor to after places behind it, cut at the ends; a missing anchor is reported |
| MessageContext.WindowMeaning | internal/store/messages.go:193-195 | the slice holds the anchor, with as many messages on either side as asked for or as there are, strictly ordered |
| MessageContext.TimelineExists | internal/store/messages.go:196-263 | every conversation of a well-kept archive has such an order |
| MessageContext.TimelineIsUnique | internal/store/messages.go:196-263 | and only one, so the result is determined |
| Backfill.OldestCursor | internal/history/history.go:100-116 | names a stored message of the chat that none precedes in time, or nothing if there is none |
| Backfill.Backfill | internal/history/history.go:34-78 | the loop fetches and writes the pages that the phone's replies define, and reports their number, their sizes, and the counts before and after |
| Backfill.RunIsBounded | internal/history/history.go:52-64 | whatever the phone does, no more fetches than requested, and no more processed than fetched |
| Backfill.AddedIsNewIff | internal/history/history.go:71-77 | the reported difference is the number of newly stored ids of the chat if and only if no stored message of it moves to another conversation |
| Backfill.PagesGoDown | internal/history/history.go:52-70 | against one fixed history the pages are a stretch without a gap that ends below the cursor, and stop early only at the start of the history |
| BackfillPages.BackfillFromTheOldest | internal/history/history.go:34-78 | started at the oldest stored message, with none of its time stored before it, a run stores exactly the nearest messages below, as many as the pages can hold or all there are, and reports that number |
| BackfillPages.NothingStoredBelowIff | internal/history/history.go:100-116 | nothing below the start is stored if and only if nothing of the start's own time is |
| BackfillPages.StretchIff | internal/history/history.go:52-70 | against one history the fetched messages are the stretch just below the start, without gap or repetition, if and only if no fetch but the last is answered with messages and a nil cursor |
| BackfillPages.NilCursorRepeats | internal/history/history.go:65-70 | a phone that never names its place, against which the second fetch brings back the message the run started from |
| BackfillPages.ProcessedAreAcceptedIff | internal/history/history.go:61-64 | a run's processed count is the number of writes the store accepts if and only if every fetched message with an id has a conversation id; it is never less |
| BackfillPages.ProcessedAreStoredIff | internal/history/history.go:52-70 | a run's processed count is the number of different messages it leaves in the store if and only if every fetched message with an id has a conversation id and no id was fetched twice, and the number the store gains if and only if none of them was there before |
| Cookies.ParseCookieHeader | internal/gm/cookies.go:110-128 | the loop reads the header part by part, later parts overwriting earlier ones |
| Cookies.ParsedIsHoldable | internal/gm/cookies.go:110-128 | from any header, every name and value read is trimmed, not empty, and free of the characters that end it |
| Cookies.ReadsBackIff | internal/gm/cookies.go:110-128 | cookies of different names, written as a cookie-string in any order, read back the same if and only if the first name does not start with the header's label |
| Cookies.LabelledReads | internal/gm/cookies.go:112-115 | what is read in that other case: the first name without the label, or nothing of it |
| Cookies.FilterGoogleCookies | internal/gm/cookies.go:130-143 | keeps exactly the required and optional cookies with a value, trimmed |
| Cookies.ValidateGoogleCookies | internal/gm/cookies.go:145-159 | names exactly the required cookies without a value, and none if all have one |
| Cookies.GoogleKeepsValues | internal/gm/cookies.go:130-143 | after reading any header, filtering keeps the Google cookies with the values that were read |
| Cookies.GoogleCookiesComeThrough | internal/gm/cookies.go:110-143 | among any other cookies and in any order, exactly the Google cookies come through, with their values |
| TuiApp.App.HandleAppEvent | gmtui/src/app.rs:807-908 | every event of the daemon updates every field as the update functions say |
| TuiApp.App.Handle | gmtui/src/app.rs:771-1210 | the same for ticks, keys and pasted text too, one event of the main loop at a time |
| TuiApp.App.OnOmniResults | gmtui/src/app.rs:829-860 | an answer to an earlier generation changes nothing; the latest one's hits replace those shown |
| TuiApp.App.SortChats | gmtui/src/app.rs:1141-1157 | the chats are in order, none is lost, and the selected one stays selected |
| TuiApp.App.HandleComposeKey | gmtui/src/app.rs:1245-1268 | at most one call is made, on Enter, and it sends the trimmed text to the current chat |
| TuiApp.App.HandleApprovalsKey | gmtui/src/app.rs:1343-1375 | the selection stays within the list; Enter and y approve exactly the selected approval, n and d deny it, r fetches the list, and no other key makes a call |
| TuiEffects.OverlayShields | gmtui/src/app.rs:1172-1210 | a key pressed over an overlay changes nothing beneath it, sends nothing and searches nothing |
| TuiEffects.EscTakesOverlaysBack | gmtui/src/app.rs:1377-1488 | if a key of the two lists has opened an overlay, Esc restores the state before that key |
| TuiEffects.TabTwice | gmtui/src/app.rs:1377-1488 | Tab goes from either list to the other and back |
| TuiEffects.CookiesGoOnce | gmtui/src/app.rs:513-534 | Enter submits the cookies at most once, and only while they are being entered |
| TuiEffects.PasteIsTyping | gmtui/src/app.rs:1316-1341 | pasting does what a key would that leaves the same text, wherever the text goes |
| TuiEffects.RefreshShowsTheQuery | gmtui/src/app.rs:396-426 | after a keystroke the chats shown are found by the query, and all that are up to the limit; hits stay only from three characters on |
| TuiEffects.TickTwice | gmtui/src/app.rs:771-784 | a second tick changes nothing: a search is sent once and a preview asked for once |
| TuiEffects.EnterOpensTheSelection | gmtui/src/app.rs:461-475 | Enter opens what the preview is for, and no other key of the search screen calls the daemon |
| TuiEffects.MissingPreviewIsAskedFor | gmtui/src/app.rs:692-703 | in every run a preview that is not shown yet has been asked for |
| TuiEffects.IncomingMessageIsShown | gmtui/src/app.rs:1110-1132 | a message of the open chat is there once, replacing the one of its id; nothing else is lost or gained; and a new one goes to its place in time |
| TuiEffects.HitRecipientIff | gmtui/src/app.rs:461-475 | what is written after opening a message hit goes to the hit's chat if and only if its surroundings came in last of any, or that chat was current |
| TuiEffects.WrongRecipientHappens | gmtui/src/app.rs:461-475 | a run from the start in which what is written on another chat's hit goes to the chat that was open before |
| TuiRuns.KeyIsPlain | gmtui/src/app.rs:1172-1210 | no key outside the compose line sends a text or a search, shows another preview, or takes up composing without a chat |
| TuiRuns.OverlaysExclude | gmtui/src/app.rs:1172-1210 | in every run at most one overlay is open, an open one covers the chats or the messages, and composing has a chat |
| TuiRuns.MessageGoesWhereComposed | gmtui/src/app.rs:1245-1268 | in every run a text is sent only on Enter in the compose line, and to the chat that was current when composing began, whatever came in since |
| TuiRuns.HitsAnswerTheQuery | gmtui/src/app.rs:416-459 | for a dispatched query of two characters or more, searching is shown exactly while its answer is out, and then that answer is what is shown |
| TuiRuns.GenerationsAreDistinct | gmtui/src/app.rs:430-433 | a generation never stands for two queries |
| TuiRuns.PreviewIsCurrent | gmtui/src/app.rs:692-703 | in every run a shown preview has the current key |
| TuiRuns.ApprovalSelectionInRange | gmtui/src/app.rs:882-891 | in every run an approval is selected exactly if there are any, and the selection is within the list |
| TuiRuns.StaleHitsIff | gmtui/src/app.rs:416-436 | after a query is cut below two characters, hits are left on screen if and only if the answer to the search before brings some before the tick |
| TuiRuns.StaleHitsHappen | gmtui/src/app.rs:416-436 | a run in which that happens |
| TuiRuns.SortingChats | gmtui/src/app.rs:1141-1157 | sorting loses no chat, puts pinned ones first and then the most recent, and keeps the selection on the same chat |
| TuiRuns.MergedIs | gmtui/src/app.rs:838-852 | the daemon's chats go after the local ones, none twice, within the limit, and left out only for that |
| TuiRuns.WithoutIs | gmtui/src/app.rs:950-960 | dropping an approval drops it and nothing else |
| TuiRuns.RunKeepsInv | gmtui/src/app.rs:771-1494 | the invariant behind these holds after every event |
| TuiCalls.EventsAskWhatTheyMean | gmtui/src/app.rs:771-1494 | in every state every key and event adds exactly the calls it stands for, each kind described on its own: in the list of approvals Enter and y approve the selected one and n and d deny it, and so for every other kind of call |
| TuiCalls.EveryCallIsMeant | gmtui/src/app.rs:771-1494 | in every run each call to the daemon was made by a key or event that stands for it, in the state of that moment |
| TuiCalls.ApprovalsAreDecidedByTheirKeys | gmtui/src/app.rs:1343-1375 | in every run an approval is approved only by Enter or y, and denied only by n or d, in the open list while it is the selected one |
| TuiKeys.FocusMovesIff | gmtui/src/app.rs:1212-1494 | a key moves the focus to another part of the screen if and only if it leads there |
| TuiKeys.ThereAndBack | gmtui/src/app.rs:1377-1494 | what a list or the search screen opens, Esc and h leave again for where it was opened; composing starts empty and returns to its list on Esc and Enter |
| TuiKeys.OverlaysAfter | gmtui/src/app.rs:1172-1488 | which keys open and close the approvals, the status page and the client itself, from where |
| TuiKeys.PromptAndPairingAfter | gmtui/src/app.rs:1270-1315 | the line asked for is for the selected chat or message and closes on Enter and Esc; pairing goes from cookies to waiting, and starts over only after a failure |
| TuiKeys.SelectionsAfter | gmtui/src/app.rs:1343-1488 | j and Down go one further down, k and Up one up, g and G to the ends, in the list on top and no other, and not past the ends |
| TuiKeys.SearchAfter | gmtui/src/app.rs:1212-1243 | on the search screen keys move the selection by one or ten places up to the ends; typing makes the search due |
| TuiKeys.ComposeAfter | gmtui/src/app.rs:1245-1268 | the compose line holds what is typed until it is left |
| TuiKeys.CurrentChatAfter | gmtui/src/app.rs:1172-1488 | a key makes a chat current exactly if it asks for it to be shown; what came in is not a key's to change |
| TuiEvents.ListsLand | gmtui/src/app.rs:820-881 | messages of another chat than the current one change nothing; those of the current one replace the list and are shown at the message singled out, or at the end |
| TuiEvents.NewMessageSelection | gmtui/src/app.rs:1110-1132 | from the bottom of the list the selection goes to the new bottom, from further up it stays |
| TuiEvents.ChatsAfter | gmtui/src/app.rs:910-1108 | the chats after an event: the list that came; the changed one in its place, or added; the time of a message's chat moved on |
| TuiEvents.ChatSelectionAfter | gmtui/src/app.rs:809-819 | when a list of chats comes the first is selected if none was; otherwise the selection goes with the chat at its place in the list that came |
| TuiEvents.RecentsFollow | gmtui/src/app.rs:1135-1140 | with an empty query the search screen shows the chats as they are after an event |
| TuiEvents.ApprovalsAfter | gmtui/src/app.rs:882-960 | the approvals after an event: the list that came; the new one on top and not twice; all but the resolved one; the selection kept if it can be |
| TuiEvents.ResultsAfter | gmtui/src/app.rs:829-860 | the answer to the latest search ends it and brings its hits; the selection stays if there is something at it and is the last result otherwise; an older answer changes nothing |
| TuiEvents.ResultChatsAfter | gmtui/src/app.rs:838-852 | the daemon's chats go behind those found before, none a second time and none left out while there is room for fifty; and nothing else does |
| TuiEvents.PreviewsAfter | gmtui/src/app.rs:861-881 | a preview that came is kept, and shown if it is the wanted one; more than two hundred kept ones are thrown away first |
| TuiEvents.TickAfter | gmtui/src/app.rs:692-784 | a tick sends a due search under the next generation and brings the preview of the selection, from those kept if it is there |
| TuiEvents.PairingAfter | gmtui/src/app.rs:971-1021 | pairing goes through its stages only while it is open |
| TuiEvents.RefreshesAfter | gmtui/src/app.rs:1033-1054 | a refresh closes pairing that has succeeded, forgets the previews, and singles out no message any more |
| TuiEvents.StartsEmpty | gmtui/src/app.rs:189-219 | the client starts on an empty search screen, with nothing open and nothing asked, and does nothing about its search until something is typed |

## Left out

- libgm: pairing, encryption, long polling and media; the phone sends, fails or answers as an action chooses.
- The SQLite engine, FTS ranking and snippets, JSON encoding, sockets and the file system; a table is a map or a sequence.
- Write failures of the archive's upserts, deletion of messages (the repository never deletes one, so the delete trigger is not modelled), migrations, aliases, and the listing queries apart from the oldest message.
- Concurrent writes between the three queries of GetMessageContext, or between the two counts of Backfill.
- A write of an outcome that takes effect and still reports an error (a failing row count); in the send protocol a failed write changes nothing, which the exact count of sends rests on.
- Restarts of the daemon: a crash between a send and its record is not part of a run.
- Finding the cookie header in pasted cURL, fetch or JSON text, and characters whose lower case has another length; the command line, MCP wrappers, daemon start-up, notifications and logging.
- gmtui/src/rpc.rs, the terminal client's own connection, which has no closed flag and does not share the guarantee of the Go client.
- Drawing, flash lines, the bell, the status record, the QR image, the ten-second status poll and list clamping done while drawing.
- Text fields of the terminal client: an event carries the text a field holds after the key, so cursor movement is not modelled; trimming and chat matching are parameters.
- Unicode: case folding and character classes are parameters, and strings are sequences of characters; SQLite's treatment of NUL is left out.
- attachConversationNames, EnrichMessages, participant names, query_terms, relative durations and the usize overflow of an excerpt budget for absurd widths.
- Events, notifications and requests that cannot be parsed, in the request and reply model; only calls with an id are in it.
- Reactions, media download, contact and history lookup appear in the send protocol only as holders of its lock.
- FtsQuery.SearchNeverFails: assumes an index that accepts any query made of quoted terms, since FTS5 itself is not modelled.
- FtsQuery.QuotingIsUndone: reads the part of FTS5's grammar that joined queries use, not column filters, NEAR or prefixes.
- FtsQuery.FallbackMeaning: assumes an index that answers quoted terms exactly; the order and limit of each search are in Archive.Store.SearchOnce.
- Like.FindConversationsIsExact: the ids of the matched contacts, the first ten that SearchContacts gives, are a parameter; trimming and the list's order and limit are left out.
- Highlight.ExcerptWindow: the window alone; the lines made of it are Excerpt.ExcerptLines, where styles and ellipses are left out.
- IdleTimer.IdleEndsInAClose: names one continuation; fairness of the scheduler is not modelled.
- TuiRuns.ApprovalSelectionInRange: takes the daemon's approval lists to have distinct ids, the table's primary key.
- TuiRuns.HitsAnswerTheQuery: takes trimming of an empty text to give an empty text, and a search to be answered at most once.
