# telegram-organizer: the incremental sync engine, modelled in Dafny

telegram-organizer is a Rust service. Every thirty minutes it does four things:

1. It lists the user's Telegram groups and channels.
2. It refreshes the chats' rows and their member lists in a local SQL database.
3. For each chat it pages through the history newer than the last stored message, stores it, and asks a local language model for three things: a category, a suggested name and the numbers of urgent messages.
4. Finally it flags chats that share a category (compared without regard to case) as duplicates.

This project models that engine and proves properties about it:

- `common.dfy`: shared records. These are `ChatInfo`, `MessageInfo`, `Option` and `Result`.
- `strings.dfy`: the text operations the engine relies on. These are Unicode white-space trimming, ASCII lower-casing, splitting, line splitting, and decimal printing and parsing.
- `sorting.dfy`: sorting by message id, reversal, and taking the last n elements.
- `telegram.dfy`: `fetch_dialogs`, `fetch_chat_members` and the retry governor `get_user_info`.
- `paginator.dfy`: `fetch_new_messages`. This is the backward paging loop over a server oracle, followed by the sort.
- `database.dfy`: the store, as a class. It has four tables:
  - `chats`, a map keyed by peer id;
  - `chat_messages`, a sequence of rows;
  - `users`, a map keyed by user id;
  - `chat_members`, a sequence of rows.

  Its statements are methods, each taking a `fault` bit. Each statement either fails with nothing written or takes full effect. This is the all-or-nothing behaviour of a single statement or transaction.
- `ai.dfy`: `analyze_chat`. It covers the prompt window, prompt construction, the error path, and the parsing of the answer with its defaults.
- `duplicates.dfy`: `mark_duplicates`. It has:
  - a declarative meaning, `Resolve`;
  - the imperative grouping and flagging loops, proved against that meaning;
  - the as-written variant that counts entries instead of distinct chats.
- `scheduler.dfy`: the scheduler helpers and one cycle of `run_schedule`. The cycle runs against an `Environment` that holds:
  - the dialog stream;
  - the member and history replies per chat;
  - the language model as a function from prompt to answer;
  - a fault oracle per database statement;
  - the clock.

Sleeps are recorded as lists of delays, not performed.

## Model

| member | source | states |
|---|---|---|
| Strings.Lower | src/scheduler.rs:158 | `to_lowercase` on ASCII: same length, every upper-case letter shifted to lower case, every other character kept |
| Strings.Trim | src/ai.rs:41 | `trim`: the result has no surrounding Unicode `White_Space` character, is a contiguous slice of the input, and only white space was cut from either end; already-trimmed text is unchanged |
| Strings.SplitPieces | src/ai.rs:63 | no piece of a split contains a separator |
| Strings.JoinSplit | src/ai.rs:63 | splitting on one separator loses nothing: joining the pieces back gives the input |
| Strings.FlattenNewlines | src/ai.rs:23 | `replace('\n', " ")`: same length, newlines become spaces, nothing else changes, no newline is left |
| Strings.ParseNatToString | src/ai.rs:64 | parsing the decimal text of a prompt number gives that number back |
| Strings.NatToStringInjective | src/ai.rs:22-24 | different prompt numbers print differently |
| Strings.IntToStringInjective | src/telegram.rs:96 | different ids print differently, so peer ids of one kind never collide |
| Sorting.SortById | src/telegram.rs:209-210 | `sort_by_key(msg_id)`: ascending by id and a permutation of its input |
| Sorting.SortByIdDistinct | src/telegram.rs:209-210 | sorting keeps the length, the elements and distinct ids |
| Sorting.SortedDistinctIncreasing | src/telegram.rs:209-210 | sorted with distinct ids means strictly increasing |
| Sorting.ReverseTakeReverse | src/scheduler.rs:111-130 | the first n of the reversed list, reversed back, are the last n of the list |
| Sorting.LastNAreHighest | src/scheduler.rs:114-115 | the last n of a sorted list stay sorted and no left-out element has a larger id |
| Telegram.PeerId | src/telegram.rs:96 | the peer id starts with its kind's prefix (`group:` or `channel:`) |
| Telegram.PeerIdInjective | src/telegram.rs:96-106 | equal peer ids mean equal kind and equal numeric id |
| Telegram.ChatInfoOf | src/telegram.rs:89-112 | private chats are skipped; groups get no access hash; channels keep theirs; peer id, title, kind and id come from the dialog |
| Telegram.KeepChatsAppend | src/telegram.rs:86-114 | the filter keeps the dialog order |
| Telegram.KeepChatsMembers | src/telegram.rs:86-114 | a chat is listed exactly when some group or channel dialog produced it |
| Telegram.ListDialogsMeaning | src/telegram.rs:86 | the listing fails exactly when the iterator reports an error, and then with the first error; otherwise it is the kept chats of every dialog in order |
| Telegram.FetchDialogs | src/telegram.rs:83-117 | the iterator loop computes exactly the listing above |
| Telegram.DisplayName | src/telegram.rs:250-252 | a member name never has surrounding white space |
| Telegram.DisplayNameCases | src/telegram.rs:250-252 | the name is "first last" when both parts are present and clean, the first name alone when there is no last name, and empty when neither is present |
| Telegram.FindUser | src/telegram.rs:238-244 | `iter().find`: the user found is the first full user object in the list with the wanted id; None means no full user object has it |
| Telegram.GroupMembersFacts | src/telegram.rs:234-258 | every group member is the member made from the first user object of a plain participant, with a trimmed name and no bio; every plain participant that has a user object yields its member; there are at most as many members as participants |
| Telegram.ChannelMembersFacts | src/telegram.rs:289-303 | there is exactly one channel member per full user object (`FullUsers`), each with a trimmed name and no bio, and every full user object yields its member |
| Telegram.FetchChatMembers | src/telegram.rs:215-310 | the loops compute exactly the group or channel member list; one 2-second pause per member, and never an error |
| Telegram.RetryCalls | src/telegram.rs:321-358 | at most three requests, at least one, at most one pause per request; an error comes after exactly one pause fewer than the requests |
| Telegram.RetryDelays | src/telegram.rs:322-351 | the pauses double from 2 seconds |
| Telegram.RetryPauses | src/telegram.rs:346-353 | every pause follows a request that failed with a rate-limit (`flood`) error |
| Telegram.RetryErrorCause | src/telegram.rs:346-354 | an error result is the error of the last request, which was not a rate limit |
| Telegram.AllFloodsDegrade | src/telegram.rs:321-358 | three rate-limit errors give three requests, pauses of 2, 4 and 8 seconds, then the "User id" placeholder |
| Telegram.OtherErrorPropagates | src/telegram.rs:354 | any other error on the first request is returned at once, with no pause |
| Telegram.GetUserInfo | src/telegram.rs:313-359 | the retry loop yields exactly the governed run: its result, its request count and its pauses |
| Paginator.Convert | src/telegram.rs:188-197 | exactly the real messages of a page are converted, and no more than the page holds |
| Paginator.MinMsgId | src/telegram.rs:204 | the smallest gathered id is one of the gathered ids and no gathered id is smaller |
| Paginator.ConvertNoMessages | src/telegram.rs:188-197 | a page of service or empty items converts to nothing |
| Paginator.ServicePageRepeats | src/telegram.rs:199-206 | a full page without real messages leaves the next max_id unchanged, so a server sending one is not well behaved |
| Paginator.StepProgress | src/telegram.rs:184-206 | a page that continues the run adds new messages inside the window with fresh ids, and lowers the next max_id |
| Paginator.StepProgressShort | src/telegram.rs:199-200 | the last, short page obeys the same window and distinctness rules |
| Paginator.WalkFound | src/telegram.rs:147-208 | whatever a run gathers lies above min_id, has distinct ids, and is either empty (invalid peer) or extends what came before |
| Paginator.PageMinId | src/telegram.rs:204 | the smallest id of a non-empty page is the id of one of its items and no item's id is smaller |
| Paginator.CorrectedServicePageMoves | src/telegram.rs:199-206 | for a full page without real messages the gathered minimum stays put, while the page's own smallest id lies inside the window and below the previous max_id, so the corrected step always moves |
| Paginator.WalkRequestCount | src/telegram.rs:147-208 | a run that ends with messages sends at most one request more than the number of messages it gathered, since each full page adds at least one message |
| Paginator.FetchNewRequestBound | src/telegram.rs:121-212 | a non-empty fetch sends at most one request more than the messages it returns |
| Paginator.WalkRequests | src/telegram.rs:146-206 | the first request has max_id 0; every later max_id lies above min_id and below the one before |
| Paginator.InvalidPeerDiscards | src/telegram.rs:162-168 | an invalid-peer error, in any case, discards every gathered page |
| Paginator.OtherErrorKeeps | src/telegram.rs:169-171 | any other error ends the run and keeps what was gathered |
| Paginator.AppendMessages | src/telegram.rs:188-197 | the conversion loop appends exactly the page's real messages in page order |
| Paginator.FetchNew | src/telegram.rs:143-211 | the result is strictly increasing by id; every id exceeds min_id and the positive checkpoint; it holds exactly what the run gathered |
| Paginator.FetchNewMessages | src/telegram.rs:121-212 | the paging loop computes the run's outcome and sends the run's requests, in order |
| Paginator.RequestPage | src/telegram.rs:148-206 | one pass of the loop body computes exactly one step of the run |
| Database.UpsertChatMeaning | src/database.rs:78-91 | a new chat gets a fresh row; an existing row changes only its name and access hash (a missing hash stored as 0); other chats are untouched |
| Database.UpsertChatIdempotent | src/database.rs:78-91 | saving the same chat twice is saving it once |
| Database.UpdateAnalysisMeaning | src/database.rs:114-122 | category, suggested name and duplicate flag of the named chat are set and nothing else changes; an unknown peer changes nothing |
| Database.ResetDuplicates | src/scheduler.rs:179 | every chat keeps its row with the duplicate flag cleared |
| Database.InsertAllFacts | src/database.rs:95-111 | the inserted rows extend the table, every batch message is present afterwards, and (chat, msg id) stays unique |
| Database.InsertAllPresent | src/database.rs:104-107 | `INSERT OR IGNORE` of messages already stored changes nothing |
| Database.InsertAllIdempotent | src/database.rs:95-111 | saving the same batch twice is saving it once |
| Database.MarkAllMeaning | src/database.rs:125-138 | a row becomes urgent exactly when it is of the chat and its id is listed, or it already was; nothing else changes |
| Database.MarkAllMonotoneIdempotent | src/database.rs:125-138 | marking only sets flags, and marking twice is marking once |
| Database.WithoutMember | src/database.rs:188-191 | exactly the membership rows of other (chat, user) pairs are kept |
| Database.WithoutMemberUnique | src/database.rs:188-191 | removing a pair keeps the (chat, user) key unique |
| Database.ReplaceMemberMeaning | src/database.rs:188-191 | `INSERT OR REPLACE`: the new row is present, it is the only one for its pair, other rows are kept and the key stays unique |
| Database.SortByName | src/database.rs:199 | `ORDER BY name COLLATE NOCASE`: ordered by case-folded name and a permutation of its input |
| Database.JoinMembers | src/database.rs:199 | a listing is produced exactly for each membership row of the chat whose user has a row, with that user's details |
| Database.ChatsOfUser | src/database.rs:212 | a chat is listed exactly when the user has a membership row for it |
| Database.Store.constructor | src/database.rs:17-75 | a new store has empty tables |
| Database.Store.SaveChat | src/database.rs:78-91 | fails only on a fault; otherwise the chat is upserted; other tables untouched |
| Database.Store.SaveMessages | src/database.rs:95-111 | an empty batch never fails; a failing transaction writes nothing; otherwise every message is inserted or ignored; the table only grows |
| Database.Store.UpdateChatAnalysis | src/database.rs:114-122 | fails only on a fault; otherwise sets the analysis of the chat |
| Database.Store.MarkUrgent | src/database.rs:125-138 | an empty id list never fails; a failing transaction writes nothing; otherwise the listed messages of the chat become urgent |
| Database.Store.SaveMember | src/database.rs:179-194 | a failing transaction writes neither row; otherwise the user row is replaced and the membership row replaced with the current time |
| Database.Store.ChatMembers | src/database.rs:197-207 | fails only on a fault; otherwise ordered by case-folded name, and holding exactly the joined members of the chat |
| Database.Store.UserChats | src/database.rs:210-220 | fails only on a fault; otherwise exactly the chats the user is a member of |
| Ai.WindowIsSuffix | src/ai.rs:17-18 | the prompt window is the last at most 1000 messages; with 1000 or fewer, all of them |
| Ai.BuildPrompt | src/ai.rs:20-31 | the prompt loop builds exactly the header, one numbered flattened line per window message, then the instructions |
| Ai.PromptNumberRoundTrip | src/ai.rs:22-73 | the number printed before a message in the prompt, read back from an answer, names that very message |
| Ai.TokenId | src/ai.rs:64-73 | a token that maps to an id maps to a message inside the window |
| Ai.UrgentIdsFromWindow | src/ai.rs:63-76 | every id collected from a token list belongs to a window message |
| Ai.ReadLinesAppend | src/ai.rs:48-79 | the answer is read line by line: reading a + b is reading a, then b |
| Ai.ReadLinesUrgentFromWindow | src/ai.rs:56-76 | reading lines never adds an urgent id outside the window |
| Ai.AnalyzeUrgentFromWindow | src/ai.rs:44-86 | every urgent id of an analysis is the id of a message in the window |
| Ai.LastCategoryWins | src/ai.rs:50-52 | the last "Category:" line decides the category |
| Ai.CategoryKept | src/ai.rs:48-79 | lines without a category tag leave the category alone |
| Ai.LastSuggestedWins | src/ai.rs:53-55 | the last "SuggestedName:" line decides the suggested name |
| Ai.SuggestedKept | src/ai.rs:48-79 | lines without a suggested-name tag leave the suggestion alone |
| Ai.ClearForgetsEarlier | src/ai.rs:59-60 | an "Urgent: None" line forgets every urgent id collected before it |
| Ai.UrgentIndependent | src/ai.rs:56-76 | the urgent ids collected from later lines do not depend on the category or suggestion read so far |
| Ai.AnalyzeDefaults | src/ai.rs:80-86 | the category is never empty; no category gives "Uncategorized" and no suggestion gives the chat title |
| Ai.UntaggedAnswerDefaults | src/ai.rs:48-86 | an answer without any tagged line gives ("Uncategorized", title, no urgent ids) |
| Ai.Untouched | src/ai.rs:48-79 | untagged lines change nothing |
| Ai.ChatAnalysisFails | src/ai.rs:36-39 | the analysis fails exactly when generation fails |
| Ai.TokenMsgId | src/ai.rs:64-73 | the token loop body maps a token to the id of the message it numbers |
| Ai.CollectUrgent | src/ai.rs:63-76 | the token loop appends exactly the ids of the tokens that name window messages |
| Ai.ReadAnswerLine | src/ai.rs:49-78 | one pass of the line loop computes exactly one line's effect |
| Ai.ReadAnswer | src/ai.rs:41-79 | the line loop over the trimmed answer computes the reading of all its lines |
| Ai.AnalyzeChat | src/ai.rs:12-87 | the whole function computes the analysis of the prompt's answer, or the generation error |
| Duplicates.FlaggedIsDuplicated | src/scheduler.rs:182-188 | flagging every group with more than one distinct chat flags exactly the duplicated chats |
| Duplicates.GroupFresh | src/scheduler.rs:157-160 | the drain loop groups this cycle's chats by lower-cased category |
| Duplicates.GroupStored | src/scheduler.rs:163-173 | the stored-row loop adds every categorised chat under its lower-cased category |
| Duplicates.FlagGroups | src/scheduler.rs:182-188 | the flag loop sets the flag of every chat in a group of more than one chat |
| Duplicates.MarkDuplicates | src/scheduler.rs:146-192 | no categories means no change; a failing transaction changes nothing; otherwise every flag is recomputed; the category list is drained |
| Duplicates.ResolveMeaning | src/scheduler.rs:146-192 | afterwards a chat is flagged exactly when another chat shares its lower-cased category; rows keep everything but the flag |
| Duplicates.SameCategoryFlagged | src/scheduler.rs:182-188 | two chats of the same category, in any case, are both flagged |
| Duplicates.LoneChatNotFlagged | src/scheduler.rs:182-188 | a chat whose category no other chat shares is not flagged |
| Duplicates.ResolveIgnoresCase | src/scheduler.rs:158-166 | changing a category's case changes nothing |
| Duplicates.ResolveIdempotent | src/scheduler.rs:176-190 | running the flagging twice is running it once |
| Duplicates.FreshCountPositive | src/scheduler.rs:157-160 | a chat analysed this cycle contributes at least one fresh entry under its key |
| Duplicates.AnalysedChatFlaggedByEntryCount | src/scheduler.rs:157-188 | as written, every chat analysed and saved this cycle is flagged |
| Duplicates.LoneChatFlaggedByEntryCount | src/scheduler.rs:157-188 | as written, a lone chat with a new analysis is flagged, while the intended flagging leaves it alone |
| Scheduler.MaxStoredId | src/scheduler.rs:99 | `MAX(msg_id)`: None exactly when the chat has no message; otherwise a stored id of the chat and no stored id is larger |
| Scheduler.Checkpoint | src/scheduler.rs:48-49 | the checkpoint is passed only when it is positive |
| Scheduler.FetchedAreNewer | src/scheduler.rs:48-49 | every fetched message is newer than every stored message of the chat |
| Scheduler.PeerMessages | src/scheduler.rs:112-113 | exactly the stored messages of the chat |
| Scheduler.PeerMessagesDistinct | src/scheduler.rs:112-113 | the stored messages of a chat have distinct ids |
| Scheduler.LastNNewest | src/scheduler.rs:114-130 | the last `limit` of a strictly increasing list are strictly increasing members of it, and no left-out element is newer than a kept one |
| Scheduler.RecentMeaning | src/scheduler.rs:108-131 | the recent list has min(limit, count) messages, strictly increasing by id, all stored messages of the chat, and no left-out one is newer |
| Scheduler.ReverseInPlace | src/scheduler.rs:130 | `reverse()`: the array ends up reversed |
| Scheduler.GetRecentMessages | src/scheduler.rs:108-131 | fails only on a fault; otherwise the newest `limit` messages in ascending order |
| Scheduler.GetChatCategory | src/scheduler.rs:135-142 | a category is read only when the query works and the chat has one, and then it is the stored one |
| Scheduler.GrownTrans | src/scheduler.rs:12-94 | growth of the message table is transitive |
| Scheduler.InsertAllGrown | src/database.rs:95-111 | saving messages is growth |
| Scheduler.MarkAllGrown | src/database.rs:125-138 | marking messages urgent is growth |
| Scheduler.GrownKeepsCheckpoint | src/scheduler.rs:98-105 | growth never lowers a chat's checkpoint |
| Scheduler.UsersAfterMeaning | src/scheduler.rs:32-36 | after a chat's member saves the users table holds the old ids plus exactly those whose save went through; a user no save reached keeps its row |
| Scheduler.UsersAfterRow | src/scheduler.rs:32-36 | a saved user holds the name, username and bio of its last listing, with `last_seen` 0 |
| Scheduler.MembersAfterMeaning | src/scheduler.rs:32-36 | after a chat's member saves the (chat, user) key stays unique, every saved user has exactly the row stamped with the clock, and every other membership row is kept |
| Scheduler.SavedMembersPresent | src/scheduler.rs:32-36 | after a chat's member saves, every member whose save went through has a user row and a membership row for the chat stamped with the clock, and no user row is lost |
| Scheduler.ChatsAfterMeaning | src/scheduler.rs:24-28 | after step 2 the chats table holds the old peers plus exactly the listed ones whose save went through; other rows are untouched |
| Scheduler.ChatsAfterTitle | src/scheduler.rs:24-28 | a saved chat carries the title of its last listing |
| Scheduler.RefreshDelaysMeaning | src/scheduler.rs:24-42 | step 2 records one 2-second pause per fetched member over all listed chats, and nothing else |
| Scheduler.RefreshChat | src/scheduler.rs:25-41 | one chat: upserted unless its save fails, then its fetched members saved in order (`UsersAfter`, `MembersAfter`), one pause per member; messages untouched |
| Scheduler.StoreAnalysis | src/scheduler.rs:66-79 | marks the analysis's urgent ids unless that transaction fails, and writes category and suggestion with the duplicate flag cleared unless that statement fails; users and members untouched |
| Scheduler.SaveMembers | src/scheduler.rs:32-36 | the users and membership tables become the in-order folds of the saves that went through (`UsersAfter`, `MembersAfter`); every whose save did not fail has a user row and a membership row for the chat stamped with the current time; user keys only grow; chats and messages untouched |
| Scheduler.RefreshChats | src/scheduler.rs:24-42 | the chats, users and membership tables become the folds over the listed chats (`ChatsAfter`, `RefreshedUsers`, `RefreshedMembers`) and the pauses are each chat's member pauses in order (`RefreshDelays`); every chat whose save did not fail is present; chat and user keys only grow; messages untouched; every recorded pause is the 2-second member pause |
| Scheduler.AnalyzeAndStore | src/scheduler.rs:65-81 | a failed analysis changes nothing and pushes nothing; a successful one marks the urgent ids, stores the analysis with duplicate cleared, and pushes (category, peer) |
| Scheduler.FetchAndSave | src/scheduler.rs:48-57 | fetches from the checkpoint and stores exactly what was fetched |
| Scheduler.ProcessChat | src/scheduler.rs:46-87 | a chat with a category and nothing new is left alone; otherwise the recent read failing is the only error; on success, the analysis of the newest 20 stored messages is pushed exactly when it succeeds, and the chat row and message table are the saved table with that analysis's category written and urgent ids marked unless those writes fail; an error leaves the saved messages and unchanged chats |
| Scheduler.RunCycle | src/scheduler.rs:10-95 | a dialog failure changes nothing and sleeps the interval; listed chats are stored unless their save failed; the message table only grows; a completed cycle ends with the 1800-second sleep after the member pauses; after a listing, the users and membership tables are the step-2 folds over the listed chats, the chat keys are those of the chats fold, and the delays are the step-2 pauses followed by the interval exactly when the cycle completes |

## Left out

- Login and session handling (`src/telegram.rs` before line 83) and `src/main.rs` are not part of this model. These are interactive I/O.
- Both `print_report` functions are output only.
- `embedding_to_blob` and the embedding column are not modelled. The store keeps one message table. `src/database.rs` names it `chat_messages` and gives `save_messages` (message, embedding) pairs, while `src/scheduler.rs` queries `messages` and passes bare messages. The model follows the scheduler's calls on one table.
- The `init_db` schema is modelled only through the keys it declares: `peer_id`, (`chat_peer`, `msg_id`), `user_id` and (`chat_peer`, `user_id`). Foreign keys and indexes are left out.
- Logging and `eprintln!` are left out.
- The narrowing casts are left out: `as i32` on chat and channel ids, `i32` message ids, and the `as i32` timestamp. Ids are unbounded integers.
- Strings.Lower: folds ASCII letters only, not full Unicode lower-casing.
- Strings.Lines: splits on `\n` only. The `\r` that `str::lines` strips is not removed here, but every line is trimmed right after the split at `src/ai.rs:49`, and `\r` is white space, so the lines read are the same.
- Telegram.FetchChatMembers: the remote's answers are inputs (`MemberReplies`), and a failed request is modelled as a missing answer. The function never returns an error, so the scheduler's `Err` arm at `src/scheduler.rs:38-40` is unreachable and not modelled. The same holds for `fetch_new_messages` and the arm at lines 84-86.
- Telegram.GetUserInfo: modelled, but no code on the cycle's path calls it.
- Paginator.FetchNewMessages: requires a server that honours each request's window (`WellBehaved`): every page has distinct ids inside the window, and a full page holds at least one real message. Without the last condition the loop as written never ends: a full page of 100 service or empty items leaves `max_id` unchanged, so the same request repeats forever (`Paginator.ServicePageRepeats`, listed under Findings). The main walk keeps the as-written step under this assumption; the corrected step is stated separately.
- Scheduler.RunCycle: models one pass of the endless loop. The sleeps are recorded as delays, not performed. Its contract states step 2 in full and the table growth of step 3, but does not restate the per-chat outcomes that `ProcessChat` and `MarkDuplicates` already state.
- Paginator.FetchNewRequestBound: the bound is stated only for a non-empty result, because an invalid-peer error discards everything gathered. It is one request per gathered message plus one, not the per-page bound of one request per 100 messages: a full page needs only one real message under `WellBehaved`.
- Scheduler.RunCycle: a fault is one bit per statement (`DbCall`), and repeated calls with the same arguments fail alike.
- Scheduler.SaveMembers: member saves use `last_seen` 0 and the environment's clock for `joined_at`.
- Database.Store.ChatMembers: the order among members with equal folded names is unspecified in SQL. The model fixes one order, and its contract states only the ordering and the contents.
- Database.Store.UserChats: SQL gives no order. The contract states only the contents.
- Ai.AnalyzeChat: the model name, `OLLAMA_MODEL` and the HTTP call are the `generate` parameter. Byte slicing of non-ASCII text is not modelled.

## Findings

| source | as written | input that shows it | evidently intended | confidence | as-written member | corrected member |
|---|---|---|---|---|---|---|
| src/scheduler.rs:157-188 | a chat analysed this cycle is pushed into the category map twice: once from this cycle's list and once from its stored row, which `update_chat_analysis` has just written. `peers.len() > 1` then holds for it alone, so it is flagged a duplicate of itself. | one chat `group:1` whose analysis gives category "News" and is saved; no other chat has "News" | flag a chat only when another chat shares its lower-cased category (the doc comment at lines 144-145) | not executed | Duplicates.LoneChatFlaggedByEntryCount | Duplicates.MarkDuplicates |
| src/telegram.rs:199-206 | after a full page, the next `max_id` is the smallest id among all messages gathered so far, so a full page of 100 service or empty items leaves it unchanged and the same request is sent again | a server that answers a request with 100 service items inside the window | the next `max_id` is the smallest id of the page just received, so every full page moves the window down | not executed | Paginator.ServicePageRepeats | Paginator.CorrectedServicePageMoves |
