# Burma Town client core in Dafny

This project models the deterministic logic of the Burma Town community app, a
React/TypeScript client where people post, comment, ask questions, answer them, and
star, report or mark content as useful. It covers these parts:

- **Engagement hooks.** These are the updaters in `usePosts` and `useQuestions`. Each one
  walks the nested content trees:
  - posts → comments → replies → nested replies;
  - questions → answers → replies → nested replies.
  Each also flips the signed-in user's stored action flags and emits adapter calls.
- **Stored actions.** This is the per-user record of boolean maps, kept under
  `bt_actions_<email>` in a key-value store. The store also holds the users list and the
  session.
- **Validators and moderation.** These are the length validators, the banned-word
  moderation and `attachModeration`.
- **Security helpers.** These are the length behaviour of the HTML sanitizer, HTML
  escaping, recursive redaction of secrets, and the backoff controller.
- **Small helpers.** These are `initials`, the media-URL classifiers and the i18n lookup.
- **The optimistic-update combinator.** It applies locally, then calls the remote, and
  rolls back on failure.
- **Adapter queues.** The engagement queue and the action-log queue are a state machine.
  It has an explicit timer step, a bounded retry, and requeue-at-front on give-up.
- **App-shell derivations.** These are the route ↔ tab mapping, creator resolution,
  business de-duplication and search, the follower list, and one-shot session hydration.
  The merged newest-first feed and the post form's submission and media rules are here too.

The clock, fresh ids, the server's answers and whether an API URL is configured are all
parameters. Each hook is a pure function
`Op(state, env, args) → Outcome(state', effects)`. The effects are the toasts and the
adapter calls the hook makes.

Files, one module each:
- `wrappers.dfy` (`Wrappers`);
- `text.dfy` (`Text`, the JavaScript string primitives used);
- `types.dfy` (`Types`);
- `storage.dfy` (`Storage`);
- `validation.dfy` (`Validation`);
- `security.dfy` (`Security`);
- `helpers.dfy` (`Helpers`);
- `i18n.dfy` (`I18n`);
- `optimistic.dfy` (`Optimistic`);
- `queue.dfy` (`BatchQueue`);
- `adapters.dfy` (`Adapters`);
- `throttle.dfy` (`Throttle`);
- `hookenv.dfy` (`HookEnv`);
- `posthooks.dfy` (`PostHooks`);
- `questionhooks.dfy` (`QuestionHooks`);
- `hydration.dfy` (`Hydration`);
- `app.dfy` (`App`);
- `feed.dfy` (`Feed`);
- `createpost.dfy` (`CreatePostForm`).

## Model

| member | source | states |
|---|---|---|
| Storage.ToggleFlag | hooks/usePosts.ts:69 | Toggling a flag inverts its membership, and every other key keeps its presence and value. |
| Storage.ToggleTwice | hooks/usePosts.ts:69 | Toggling the same key twice gives back the original membership for every key. |
| Storage.ActionsKeysDistinct | lib/storage.ts:1-4 | Two emails share an actions key only if they are equal. No actions key collides with the users key or the session key. |
| Storage.LoadUsers | lib/storage.ts:23-29 | A missing or unreadable users entry loads as the empty list. A readable one loads as the stored list. |
| Storage.SaveUsers | lib/storage.ts:31-33 | After saving, loading gives back the saved list. Every other key is untouched. |
| Storage.LoadSession | lib/storage.ts:35-41 | A missing or unreadable session entry loads as no session. |
| Storage.SaveSession | lib/storage.ts:43-46 | After saving a session, loading gives it back. Every other key is untouched. |
| Storage.ClearSession | lib/storage.ts:48-50 | After clearing, no session loads and the key is gone. Every other key is untouched. |
| Storage.SaveThenClear | lib/storage.ts:43-50 | Saving any session and then clearing leaves no session. |
| Storage.DefaultUserActions | lib/storage.ts:78-100 | The defaults mark nothing as starred or followed. They hold an empty reply-report map and no answer-reply report map. |
| Storage.GetUserActions | lib/storage.ts:102-113 | A missing or unparsable record yields the full defaults. A stored top-level field replaces its default wholesale, for example the whole `reports` record. An absent field falls back to its default. |
| Storage.UpdateUserActions | lib/storage.ts:115-125 | The result is the updater applied to the current actions. That value is stored under `bt_actions_` plus the email. Every other key is untouched. |
| Storage.UpdateThenGet | lib/storage.ts:102-125 | Reading the actions back after an update yields exactly the updated value. |
| Storage.UpdateIsolated | lib/storage.ts:104-118 | Updating one email's actions leaves another email's actions, the users list and the session as they were. |
| Storage.UpdateStored | lib/storage.ts:115-125 | After an update, the email reads back exactly the updated record, and every other email's actions, the users list and the session read as before. |
| Validation.AtLeastOneIffNotBlank | lib/validation.ts:6-7 | A trimmed length of at least one holds exactly when the string is not all whitespace. |
| Validation.FieldErrors | lib/validation.ts:19-22 | A field has no error exactly when its trimmed length reaches the minimum and its raw length is within the maximum. A short field gets only the "required" message. A long one gets only the "too long" message. |
| Validation.Result | lib/validation.ts:23 | `ok` holds exactly when the error list is empty. |
| Validation.ValidatePost | lib/validation.ts:17-24 | The post is ok exactly when the title and body are not blank and are within 120 and 4000 characters. There are at most two errors. The title's error comes first, with the exact messages. |
| Validation.ValidateQuestion | lib/validation.ts:26-32 | The question is ok exactly when the trimmed title has at least 3 characters and the title has at most 120. Truthy details must also have at most 5000. Absent or empty details never add an error. |
| Validation.ValidateComment | lib/validation.ts:34-39 | The comment is ok exactly when the text is not blank and has at most 1000 characters. Blank text gives the single error "Comment text required". |
| Validation.ValidateAnswer | lib/validation.ts:41-46 | The answer is ok exactly when the text is not blank and has at most 4000 characters. Blank text gives the single error "Answer text required". |
| Validation.FirstError | lib/validation.ts:72-74 | The result is absent exactly when there are no errors. Otherwise it is the first error. |
| Validation.FailureHasFirstError | lib/validation.ts:17-24 | A failed post validation always has a first error to show. |
| Validation.PostTitleBoundary | lib/validation.ts:11-20 | With a valid body, a 120-character non-blank title passes and a 121-character one fails. |
| Validation.Hits | lib/validation.ts:54-58 | A banned word is reported exactly when the lower-cased text contains it. |
| Validation.Reasons | lib/validation.ts:58 | There is one reason per hit, in order, each being `Contains banned word: ` followed by the word. |
| Validation.ModerateText | lib/validation.ts:54-60 | Absent or empty text is unflagged with no reasons. A text is flagged exactly when it has reasons. |
| Validation.ModerateTextSpec | lib/validation.ts:51-60 | A non-empty text is flagged exactly when its lower-case form contains "badword" or "offensive". The reasons list the matching words in list order. |
| Validation.ModerationIgnoresCase | lib/validation.ts:54-60 | An upper-case banned word is still caught. |
| Validation.Inspected | lib/validation.ts:63 | Moderation inspects the first truthy of body, text and title, or the empty string. |
| Validation.ModeratePost | lib/validation.ts:62-69 | An unflagged post is returned unchanged. A flagged one gets `flagged` and the reasons. No other field changes. |
| Validation.ModerateComment | lib/validation.ts:62-69 | The same rule for a comment, which is inspected through its text. |
| Validation.ModerateQuestion | lib/validation.ts:62-69 | The same rule for a question, which is inspected through its title. |
| Validation.ModerateAnswer | lib/validation.ts:62-69 | The same rule for an answer, which is inspected through its text. |
| Validation.ModerationIdempotent | lib/validation.ts:62-69 | Moderating an already moderated object changes nothing. |
| Security.SanitizeHtml | lib/security.ts:10-16 | The empty input gives the empty output. The output never exceeds `maxLen`, and it is a prefix of the stripped text. When the strippers only shorten, it is never longer than the input. |
| Security.SanitizeKeepsCleanText | lib/security.ts:10-16 | Text the strippers leave alone, and that fits, is returned unchanged. |
| Security.EscapeChar | lib/security.ts:19-21 | Each character escapes to a non-empty string with no `<`, `>` or `"`. Characters other than `& < > "` stay as they are. |
| Security.EscapeHtml | lib/security.ts:19-21 | The output never shrinks and contains no `<`, `>` or `"`. A string free of the four special characters is returned unchanged. |
| Security.UnescapeStep | lib/security.ts:20 | Decoding an escaped character followed by anything gives back that character, then the decoding of the rest. |
| Security.EscapeRoundTrip | lib/security.ts:19-21 | Decoding the escaped string gives back the original, so escaping loses nothing. |
| Security.Scrub | lib/security.ts:25-34 | Scalars come back unchanged. Arrays keep their length, and each item is itself scrubbed. Objects keep their keys in order. Every sensitive key's value becomes `[REDACTED]`, and every other value is itself scrubbed. |
| Security.ScrubKeepsPlain | lib/security.ts:25-34 | A value with no sensitive key at any depth comes back unchanged, so scrubbing changes nothing but sensitive values. |
| Security.ScrubCleans | lib/security.ts:24-34 | After scrubbing, no sensitive key at any depth holds anything but `[REDACTED]`. |
| Security.ScrubIdempotent | lib/security.ts:25-34 | Scrubbing twice equals scrubbing once. |
| Security.NewBackoff | lib/security.ts:37-39 | A new controller starts at attempt 0 with its base and cap. |
| Security.Reset | lib/security.ts:40 | Reset sets the attempt to 0 and keeps the base and the cap. |
| Security.RawDelay | lib/security.ts:41 | The un-jittered delay never exceeds the cap, and it equals `base*2^attempt` when that fits. |
| Security.NextDelay | lib/security.ts:41 | Each call advances the attempt by one and keeps the configuration. The delay never exceeds the cap, and the first delay is the base. |
| Security.Pow2Monotone | lib/security.ts:41 | Powers of two grow with the exponent. |
| Security.DelayMonotone | lib/security.ts:41 | The un-jittered delay is non-decreasing in the attempt. |
| Security.EngagementDelays | lib/adapters.ts:107-133 | With base 800 ms and cap 8000 ms, the delays run 800, 1600, 3200, 6400, 8000. |
| Helpers.Take | lib/helpers.ts:17 | The result is the longest prefix of at most `n` elements. |
| Helpers.InitialsAsWritten | lib/helpers.ts:12-18 | This is `initials` as written: it keeps two first letters, then upper-cases. |
| Helpers.InitialsAsWrittenTooLong | lib/helpers.ts:12-18 | For "ß ß" the written code returns "SSSS", which is four characters. |
| Helpers.Initials | lib/helpers.ts:12-18 | The corrected initials have at most two characters. They are a prefix of the upper-cased first letters of the words. |
| Helpers.InitialsAgree | lib/helpers.ts:12-18 | Without a ß among the first two letters, both versions agree. |
| Helpers.UpperPrefix | lib/helpers.ts:18 | Upper-casing distributes over concatenation. |
| Helpers.InitialsOfNoName | lib/helpers.ts:13-18 | An absent or empty name gives "?", because the "??" fallback is one word. |
| Helpers.InitialsOfTwoWords | lib/helpers.ts:13-18 | Two words separated by one space give their two upper-cased first letters. |
| Helpers.IsVideoUrl | lib/helpers.ts:29 | A missing or empty URL is never a video. The extension and prefix cases are the lemmas below. |
| Helpers.IsImageUrl | lib/helpers.ts:30 | A missing or empty URL is never an image. The extension and prefix cases are the lemmas below. |
| Helpers.VideoByExtension | lib/helpers.ts:29 | A URL ending in `.mp4`, `.webm` or `.ogg`, in any case, is a video URL. |
| Helpers.ImageByExtension | lib/helpers.ts:30 | A URL ending in one of the image extensions, in any case, is an image URL. |
| Helpers.ByDataPrefix | lib/helpers.ts:29-30 | A URL starting with `data:video/` or `data:image/`, in any case, is classified accordingly. |
| Helpers.VideoAndImageOverlap | lib/helpers.ts:29-30 | The two classifiers are not exclusive: `data:video/a.png` is both. |
| I18n.Entry | lib/i18n.tsx:8-45 | An entry exists exactly when the language has a catalog holding the key. |
| I18n.Message | lib/i18n.tsx:50 | The active language's truthy entry wins. Otherwise a non-empty English entry is used, else the key itself. |
| I18n.T | lib/i18n.tsx:49-53 | Without vars, `t` returns the message verbatim. |
| I18n.UnknownLanguageIsEnglish | lib/i18n.tsx:50 | A language with no catalog resolves every key as English does. |
| I18n.FallbackExamples | lib/i18n.tsx:8-50 | `auth.email` in Burmese falls back to "Email". A Burmese key uses its entry. An unknown key comes back as itself. |
| I18n.SubstituteAbsent | lib/i18n.tsx:51 | Vars whose placeholders do not occur leave the message untouched. |
| I18n.SubstituteOne | lib/i18n.tsx:51 | A `{name}` placeholder is replaced by the value, and the surrounding text is kept. |
| Optimistic.CatchBlock | lib/optimistic.ts:13-15 | The catch block starts with the one rollback call and never rolls back again. |
| Optimistic.OptimisticUpdate | lib/optimistic.ts:4-19 | Every run starts with `applyLocal`. If `applyLocal` throws, nothing else runs and the call rejects. |
| Optimistic.ApplyOnceBeforeRemote | lib/optimistic.ts:10-12 | `applyLocal` runs exactly once, and `remote` comes right after it. |
| Optimistic.SuccessKeepsLocal | lib/optimistic.ts:11-12 | If `remote` resolves, there is no rollback and no `onError`. |
| Optimistic.FailureRollsBackOnce | lib/optimistic.ts:13-15 | If `remote` rejects, the rollback runs exactly once. Then `onError` receives the snapshot. |
| Optimistic.FinallyOnceLast | lib/optimistic.ts:16-18 | `onFinally` runs exactly once and last, on both paths. |
| Optimistic.FailureContained | lib/optimistic.ts:11-15 | When rollback and the handlers do not throw, a remote failure never escapes. |
| Optimistic.SettleFollowsTrace | lib/optimistic.ts:10-15 | The hooks' local state ends rolled back exactly when the combinator's run invoked the rollback, and as the local update otherwise. |
| Optimistic.CountAppend | lib/optimistic.ts:4-19 | Call counts add over concatenated traces. |
| BatchQueue.Block | lib/adapters.ts:88-89 | A block of statements completes normally exactly when each of them does. |
| BatchQueue.FallbackCompletes | lib/adapters.ts:122 | The sequential fallback always completes, whatever the sends do. |
| BatchQueue.UncaughtFallbackThrows | lib/adapters.ts:122 | Without the per-item catch, one failing send would abort the block. |
| BatchQueue.RetryFrom | lib/adapters.ts:114-133 | The retry loop stops at the first succeeding attempt. It gives up only after every remaining attempt up to 5 has failed. |
| BatchQueue.Retry | lib/adapters.ts:114-133 | The loop makes between 1 and 5 attempts. It succeeds exactly when some attempt within 5 succeeds, and then at the first one. |
| BatchQueue.FirstAttemptWins | lib/adapters.ts:114-122 | If the first attempt succeeds, the loop stops after one try. |
| BatchQueue.Init | lib/adapters.ts:56-72 | The queue starts with the persisted items, no timer and nothing in flight. |
| BatchQueue.Schedule | lib/adapters.ts:73-74 | At most one timer is pending. Scheduling while one is pending changes nothing. |
| BatchQueue.Push | lib/adapters.ts:181-186 | Without an API nothing changes. Otherwise the item goes to the tail, the queue is persisted and a flush is scheduled. For engagements, the pending event reports the new length. |
| BatchQueue.PendingMatches | lib/adapters.ts:185-200 | The pending count in the last event equals the queue length. |
| BatchQueue.TimerFires | lib/adapters.ts:107-113 | The flush takes the whole queue as one batch and empties the queue first. An empty batch sends nothing. Without an API the batch is dropped. |
| BatchQueue.ManualFlush | lib/adapters.ts:187-199 | A manual flush takes the whole queue as one batch when there is an API and something queued. Otherwise it changes nothing. |
| BatchQueue.RemoveAt | lib/adapters.ts:107-139 | Removing a settled flight shortens the list by one and keeps every other flight, in order. |
| BatchQueue.Settle | lib/adapters.ts:114-133 | On success the batch counts as sent and the backoff resets. On give-up the batch returns to the queue front, in order, ahead of items queued since. |
| BatchQueue.RealFlushSucceeds | lib/adapters.ts:80-137 | With the catching fallback, every flush of either queue succeeds on its first attempt: the batch counts as sent and nothing is requeued. The engagement queue emits one flush event carrying the batch size; the action-log queue emits none. |
| BatchQueue.FlatConcat | lib/adapters.ts:107-139 | The in-flight items of concatenated flight lists concatenate. |
| BatchQueue.InitAccounted | lib/adapters.ts:56-72 | A fresh queue accounts for every item, and its persisted copy mirrors the queue. |
| BatchQueue.PushPreserves | lib/adapters.ts:181-186 | Enqueueing keeps every received item either queued, in flight or sent. |
| BatchQueue.TimerPreserves | lib/adapters.ts:107-113 | A timer flush loses no item except those it drops for lack of an API. |
| BatchQueue.ManualPreserves | lib/adapters.ts:187-199 | A manual flush loses no item. |
| BatchQueue.FlatRemove | lib/adapters.ts:107-139 | Removing a flight removes exactly its batch from the in-flight items. |
| BatchQueue.SettlePreserves | lib/adapters.ts:114-133 | Settling a flight loses no item: it is either sent or requeued. |
| Adapters.ChooseAdapter | lib/adapters.ts:203-205 | The remote adapter is chosen exactly when an API URL is set. |
| Adapters.LocalCreatePost | lib/adapters.ts:32-34 | The local post carries the given fields, the fresh id and the current time, with zero counters. The author falls back to "User". |
| Adapters.RemoteCreatePost | lib/adapters.ts:142-147 | The remote post equals the local one except the id. The id is the server's when the server answered, else the local id. |
| Adapters.LocalCreateQuestion | lib/adapters.ts:41-43 | The local question carries the given title and details, with zero counters. Its author falls back to "User" and "". |
| Adapters.RemoteCreateQuestion | lib/adapters.ts:158-163 | The remote question equals the local one except the id. The id is the server's when the server answered. |
| Adapters.CreatedId | lib/adapters.ts:148-168 | The created id is the server's when the API answered, else the fresh local id. |
| Adapters.NoApiIsLocal | lib/adapters.ts:143 | Without an API URL, the remote create is the local create. |
| Adapters.PersistEngagement | lib/adapters.ts:181-186 | Without an API nothing happens. Otherwise the event joins the queue tail and the pending event reports the new length. |
| Adapters.RecordUserAction | lib/adapters.ts:169-174 | Without an API nothing happens. Otherwise the action with its time joins the action-log tail and a flush is scheduled. |
| Adapters.Deliver | lib/adapters.ts:169-186 | With an API set, delivering a hook's effects appends exactly its persisted engagements to the engagement queue, and its recorded actions (stamped with the time) to the action-log queue, each in effect order. Without an API a queue is unchanged. |
| Throttle.CanReport | hooks/usePosts.ts:14-16 | In test mode every report is allowed and nothing is recorded. Otherwise a report is allowed exactly when 3000 ms have passed since the key's last accepted report. Acceptance records the time, and refusal changes nothing. |
| Throttle.RefusedWithinWindow | hooks/usePosts.ts:16 | A second report on the same key within 3000 ms of an accepted one is refused. |
| Throttle.AllowedAfterWindow | hooks/usePosts.ts:16 | A second report 3000 ms or more later is allowed. |
| Throttle.KeysIndependent | hooks/usePosts.ts:13-16 | Accepting a report on one key does not affect another key. |
| HookEnv.Sanitize | hooks/usePosts.ts:25 | Sanitized text is at most 8000 characters, and the empty text stays empty. |
| HookEnv.SwallowedKeepsLocal | hooks/usePosts.ts:50 | For any outcome of the wrapped call, the run of `optimisticUpdate` never invokes the rollback, and it does not reject unless `onFinally` throws. So the comment or reply added locally always stays. |
| PostHooks.CreatePost | hooks/usePosts.ts:21-39 | Invalid input gives the first error as a toast and no change. Valid input prepends one post with the sanitized title and body, zero counters and the current time. Its id is the server's when there was one. It carries the given media, media URL and price, and the profile's name (else "User"), avatar and type. It is flagged exactly when moderation of its body (or its title, when the body is empty) finds a banned word, with those reasons. |
| PostHooks.CreatePostRollbackRestores | hooks/usePosts.ts:31-32 | If the post's creation were rolled back, the posts would be exactly as before. |
| PostHooks.AddComment | hooks/usePosts.ts:41-53 | Invalid text gives a toast and no change. Valid text appends the comment to the target post only and sends the raw text to the adapter. |
| PostHooks.NewReply | hooks/usePosts.ts:56 | A new reply has sanitized text, the fresh id, zero stars and reports, and no replies. |
| PostHooks.AddReply | hooks/usePosts.ts:55-65 | With no sign-in or validation guard, this appends the reply to the target comment only and calls the adapter. |
| PostHooks.AddReplyToReply | hooks/usePosts.ts:76-80 | Without a user nothing changes. Otherwise exactly one new reply is appended to the parent reply's replies, and everything else is unchanged. |
| PostHooks.ToggleStarPost | hooks/usePosts.ts:67-73 | Without a user nothing changes. Otherwise the post's stored star flips and only the target post's stars move by ±1, clamped at 0. One action and one engagement are emitted, with `added` equal to the new membership. The stored record equals the old one with only that mark toggled (`Storage.StoredAs`): other keys and fields, other emails' records, the users list and the session are unchanged. |
| PostHooks.ToggleCommentStar | hooks/usePosts.ts:83-89 | This flips the comment star. Only the matching comment under the given post moves by ±1, clamped at 0. One engagement is emitted. The stored record equals the old one with only that mark toggled (`Storage.StoredAs`): other keys and fields, other emails' records, the users list and the session are unchanged. |
| PostHooks.ToggleReplyStar | hooks/usePosts.ts:90-96 | This flips the reply star. Only the matching first-level reply moves, and second-level replies are never touched. The stored record equals the old one with only that mark toggled (`Storage.StoredAs`): other keys and fields, other emails' records, the users list and the session are unchanged. |
| PostHooks.ReportPost | hooks/usePosts.ts:99-106 | The throttle is checked first. A refusal gives a toast and no change. A guest only starts the window. A user flips the report mark and moves the post's reports by ±1, clamped, emitting `added = !removed`. The stored record equals the old one with only that mark toggled (`Storage.StoredAs`): other keys and fields, other emails' records, the users list and the session are unchanged. |
| PostHooks.ReportComment | hooks/usePosts.ts:107-114 | This is the same as reporting a post, applied to the matching comment under the given post. The stored record equals the old one with only that mark toggled (`Storage.StoredAs`): other keys and fields, other emails' records, the users list and the session are unchanged. |
| PostHooks.ReportInReplies | hooks/usePosts.ts:119 | The report moves on the first-level reply with the id, or else on a second-level reply with it. |
| PostHooks.ReportReply | hooks/usePosts.ts:115-122 | The throttle comes first. A user's report flips the mark and moves the matching first- or second-level reply's reports. The stored record equals the old one with only that mark toggled (`Storage.StoredAs`): other keys and fields, other emails' records, the users list and the session are unchanged. |
| PostHooks.CommentsOnlyTwice | hooks/usePosts.ts:47-48 | Two updates that touch only the target post's comments, and that restore those comments, restore the whole list. |
| PostHooks.RepliesOnlyTwice | hooks/usePosts.ts:59-60 | The same holds for replies under one comment. |
| PostHooks.CommentStarredTwice | hooks/usePosts.ts:86 | Starring and then un-starring a comment restores the comments. |
| PostHooks.ToggleCommentStarTwice | hooks/usePosts.ts:83-89 | Toggling a comment star twice restores the posts and the stored flags. The two engagements carry opposite `added` values. |
| PostHooks.ToggleStarPostTwice | hooks/usePosts.ts:67-73 | Toggling a post star twice restores the posts and the stored flags. |
| PostHooks.ReplyStarKeepsNested | hooks/usePosts.ts:93 | Starring a reply never changes any reply's nested replies. |
| PostHooks.ReplyReportedTwice | hooks/usePosts.ts:119 | Reporting and then un-reporting a reply restores the replies. |
| PostHooks.ReportReplyTwice | hooks/usePosts.ts:115-122 | Reporting a reply twice in test mode restores the posts. |
| PostHooks.ReportPostThrottled | hooks/usePosts.ts:13-16 | A second report on the same post within 3000 ms is refused with a toast and no change, as `reportPost` does at line 100. |
| PostHooks.GuestReportStartsWindow | hooks/usePosts.ts:100-101 | A guest's allowed report changes neither posts nor store, but it records the time. |
| QuestionHooks.TouchReplyTwice | hooks/useQuestions.ts:79-90 | Moving a reply counter up and then down restores the reply. |
| QuestionHooks.TouchAnswerTwice | hooks/useQuestions.ts:53-61 | Moving an answer counter up and then down restores the answer. |
| QuestionHooks.TouchInReplies | hooks/useQuestions.ts:79-82 | The counter moves on the first-level reply with the id, or else on a second-level reply with it. |
| QuestionHooks.InAnswer | hooks/useQuestions.ts:53 | Only the matching answer of the target question is rewritten. |
| QuestionHooks.AskQuestion | hooks/useQuestions.ts:19-28 | Invalid input gives the first error as a toast. Valid input prepends one question with the sanitized title, sanitized details only when truthy, and zero counters. Its author is the user's name ("User" for a guest), with the user's email. It is flagged exactly when moderation of its title finds a banned word, with those reasons. |
| QuestionHooks.NewAnswer | hooks/useQuestions.ts:33-34 | A new answer takes the adapter's id, the sanitized text and zero counters. |
| QuestionHooks.AnswerQuestion | hooks/useQuestions.ts:30-40 | Invalid text gives a toast and no change. Valid text sends the sanitized text and appends the answer to the target question only. |
| QuestionHooks.AnswerRollbackRestores | hooks/useQuestions.ts:36 | Rolling back the answer's creation restores the answers. |
| QuestionHooks.ToggleQuestionStar | hooks/useQuestions.ts:42-48 | Without a user nothing changes. Otherwise the stored star flips and only the target question's stars move by ±1, clamped. One engagement is emitted. The stored record equals the old one with only that mark toggled (`Storage.StoredAs`): other keys and fields, other emails' records, the users list and the session are unchanged. |
| QuestionHooks.ToggleAnswerStar | hooks/useQuestions.ts:50-56 | This flips the answer star and moves only the matching answer's stars by ±1, clamped. Other flags are unchanged. The stored record equals the old one with only that mark toggled (`Storage.StoredAs`): other keys and fields, other emails' records, the users list and the session are unchanged. |
| QuestionHooks.ToggleUsefulAnswer | hooks/useQuestions.ts:58-64 | `useful` moves by ±1 following the stored mark. `usefulByUser` is negated unconditionally. The stored record equals the old one with only that mark toggled (`Storage.StoredAs`): other keys and fields, other emails' records, the users list and the session are unchanged. |
| QuestionHooks.NewAnswerReply | hooks/useQuestions.ts:68 | A new answer reply has sanitized text and zero counters. |
| QuestionHooks.AddAnswerReply | hooks/useQuestions.ts:66-70 | Without a user nothing changes. Otherwise one reply is appended to the target answer only. |
| QuestionHooks.AddNestedAnswerReply | hooks/useQuestions.ts:71-75 | Without a user nothing changes. Otherwise one reply is appended to the parent reply only. |
| QuestionHooks.ToggleAnswerReplyUseful | hooks/useQuestions.ts:76-86 | This flips the mark and updates the first-level reply with the id, or else a matching second-level reply. The stored record equals the old one with only that mark toggled (`Storage.StoredAs`): other keys and fields, other emails' records, the users list and the session are unchanged. |
| QuestionHooks.StarAnswerReply | hooks/useQuestions.ts:87-93 | This flips the star mark and moves the matching first- or second-level reply's stars by ±1, clamped. The stored record equals the old one with only that mark toggled (`Storage.StoredAs`): other keys and fields, other emails' records, the users list and the session are unchanged. |
| QuestionHooks.Optional | hooks/useQuestions.ts:103 | An absent answer id is sent as `undefined`. |
| QuestionHooks.ReportQuestion | hooks/useQuestions.ts:94-105 | The throttle key is `question:` or `answer:` plus the id, with no test bypass. Without an answer id only the question's reports move. With one, only that answer's reports move. The stored record equals the old one with only that mark toggled (`Storage.StoredAs`): other keys and fields, other emails' records, the users list and the session are unchanged. |
| QuestionHooks.ReportWholeQuestion | hooks/useQuestions.ts:97-103 | This flips the question's report mark and moves only its reports. The stored record equals the old one with only that mark toggled (`Storage.StoredAs`): other keys and fields, other emails' records, the users list and the session are unchanged. |
| QuestionHooks.ReportAnswer | hooks/useQuestions.ts:97-104 | This flips the answer's report mark and moves only that answer's reports. The stored record equals the old one with only that mark toggled (`Storage.StoredAs`): other keys and fields, other emails' records, the users list and the session are unchanged. |
| QuestionHooks.ReportAnswerReply | hooks/useQuestions.ts:106-112 | There is no throttle. This flips the mark and moves the matching first- or second-level reply's reports. The stored record equals the old one with only that mark toggled (`Storage.StoredAs`): other keys and fields, other emails' records, the users list and the session are unchanged. |
| QuestionHooks.ReplyTouchedTwice | hooks/useQuestions.ts:79-82 | Two opposite counter moves on the same reply id restore the replies. |
| QuestionHooks.AnswerTouchedTwice | hooks/useQuestions.ts:53 | Two opposite counter moves on the same answer id restore the answers. |
| QuestionHooks.AnswersOnlyTwice | hooks/useQuestions.ts:36 | Updates confined to one question's answers, which restore those answers, restore the list. |
| QuestionHooks.AnswerRepliesOnlyTwice | hooks/useQuestions.ts:69 | The same holds for one answer's replies. |
| QuestionHooks.ToggleAnswerStarTwice | hooks/useQuestions.ts:50-56 | Toggling an answer star twice restores the questions and the flags. |
| QuestionHooks.ReplyUpdatesCancel | hooks/useQuestions.ts:79-90 | Two opposite reply-counter updates through the whole tree restore the questions. |
| QuestionHooks.ToggleAnswerReplyUsefulTwice | hooks/useQuestions.ts:76-86 | Toggling a reply's useful mark twice restores the questions. |
| QuestionHooks.ReportAnswerReplyTwice | hooks/useQuestions.ts:106-112 | Reporting an answer reply twice restores the questions. |
| QuestionHooks.ReportKeysSeparate | hooks/useQuestions.ts:95 | Answer and question reports never share a throttle key. |
| Hydration.RestoreStars | app/BurmaTown.tsx:368 | A non-zero count is kept. A zero count becomes 1 only when the stored action marks it. |
| Hydration.AddReaction | app/BurmaTown.tsx:425-426 | The stored reaction's count goes up by one, and the other counts are kept. |
| Hydration.HydrateComment | app/BurmaTown.tsx:369-376 | This restores the comment's star and each reply's star. It adds the stored reaction (lines 420-430) only when the comment has none. Nothing else changes. |
| Hydration.HydratePost | app/BurmaTown.tsx:366-377 | This restores the post's star and hydrates each comment. Nothing else changes. |
| Hydration.HydratePosts | app/BurmaTown.tsx:366 | Every post is hydrated in place. |
| Hydration.UsefulNested | app/BurmaTown.tsx:408-411 | A useful mark sets `usefulByUser` and adds 1 only when it was not already set. |
| Hydration.HydrateAnswerReply | app/BurmaTown.tsx:400-415 | This restores the reply's useful mark and its nested replies' marks, each adding 1 at most once. |
| Hydration.HydrateAnswer | app/BurmaTown.tsx:381-384 | This restores the answer's star and hydrates its replies' useful marks (lines 396-417). It does not restore a useful mark. |
| Hydration.HydrateQuestion | app/BurmaTown.tsx:378-394 | This restores the question's star and useful mark, the latter adding 1 only when not already set. |
| Hydration.HydrateQuestions | app/BurmaTown.tsx:378 | Every question is hydrated in place. |
| Hydration.Hydrate | app/BurmaTown.tsx:361-433 | Without a user, or once applied, nothing changes. Otherwise the stored actions are applied to posts and questions once, and the applied flag is set. |
| Hydration.HydrateAtMostOnce | app/BurmaTown.tsx:361-433 | After hydration ran, further hydrations for any user or store change nothing. |
| Hydration.HydrateCommentTwice | app/BurmaTown.tsx:369-376 | Hydrating a comment twice, stars and the reaction of lines 420-430, equals hydrating it once. |
| Hydration.HydratePostTwice | app/BurmaTown.tsx:366-377 | Hydrating a post twice equals hydrating it once. |
| Hydration.HydrateAnswerReplyTwice | app/BurmaTown.tsx:400-415 | Hydrating an answer reply twice equals hydrating it once. |
| Hydration.HydrateAnswerTwice | app/BurmaTown.tsx:381-417 | Hydrating an answer twice equals hydrating it once. |
| Hydration.HydrateQuestionTwice | app/BurmaTown.tsx:378-417 | Hydrating a question twice equals hydrating it once. |
| Hydration.HydrationIdempotent | app/BurmaTown.tsx:361-433 | Even without the guard, a second hydration would change nothing. |
| Hydration.AnswerUsefulNotRestored | app/BurmaTown.tsx:378-417 | Hydration leaves every answer's `useful` count and mark as they were. |
| App.TabOf | app/BurmaTown.tsx:172-173 | A segment names a non-feed tab exactly when it is qa, biz, profile or creator. Anything else is the feed. |
| App.StripTrailingSlashes | app/BurmaTown.tsx:171 | The result is the path without its trailing run of slashes. |
| App.SlashesOnlyIsFeed | app/BurmaTown.tsx:171 | The root path, a path of slashes and a missing path all map to the feed. |
| App.FirstSegmentDecides | app/BurmaTown.tsx:171-173 | Only the first segment decides the tab, so deeper segments are ignored. |
| App.FirstSegmentOf | app/BurmaTown.tsx:171-173 | A first segment followed by any slash-led tail gives that segment's tab. |
| App.TrailingSlashIgnored | app/BurmaTown.tsx:171 | A trailing slash never changes the tab. |
| App.GoTabPath | app/BurmaTown.tsx:190 | Every path that `goTab` builds starts with a slash. |
| App.GoTabRoundTrip | app/BurmaTown.tsx:170-190 | Each of the five tabs maps back to itself from the path `goTab` builds. |
| App.FindFirst | app/BurmaTown.tsx:47-50 | `find` returns the first match, and none exists when it returns nothing. |
| Text.Before | app/BurmaTown.tsx:53 | The first piece of `split(sep)` has no separator and is a prefix of the text; `email.split('@')[0]` and the first line of a business description (components/CreatePost.tsx line 54) are both this piece. |
| App.LocalPartOf | app/BurmaTown.tsx:53 | For `user@domain` it is `user`. An email with no '@' is its own local part. |
| App.ResolveCreator | app/BurmaTown.tsx:44-54 | No email gives no creator. Otherwise the first matching post author is used, then the first matching question author, else the local part of the email, or the whole email when that part is empty. |
| App.UnknownCreatorName | app/BurmaTown.tsx:53 | An unknown creator is named by the local part, or by the whole email when that is empty. |
| App.FirstAt | app/BurmaTown.tsx:460-462 | This finds the first position with a given name. |
| App.FirstAtSnoc | app/BurmaTown.tsx:461 | Appending keeps earlier first positions. |
| App.FirstAtSameNames | app/BurmaTown.tsx:461 | Lists with the same names position them the same. |
| App.PostBusinesses | app/BurmaTown.tsx:445-456 | Every post written as a business yields its entry, and every entry comes from such a post. |
| App.UserBusinesses | app/BurmaTown.tsx:437-440 | Every registered business user yields its entry, and every entry comes from such a user. |
| App.DedupByNameSpec | app/BurmaTown.tsx:460-462 | Names are pairwise distinct and each comes from the input. The last entry with a name wins, kept at the position of that name's first occurrence. |
| App.BusinessesDistinct | app/BurmaTown.tsx:442-463 | The businesses list has distinct names, and each entry is the last candidate pushed under its name. |
| App.FilterBusinesses | app/BurmaTown.tsx:627-630 | This keeps exactly the businesses whose name or category contains the lower-cased query, ignoring case. |
| App.FilterKeepsOrder | app/BurmaTown.tsx:627-630 | The search keeps directory order. One business stays exactly when it matches, and the result for two runs of the directory is the two results joined in order. |
| App.EmptyQueryKeepsAll | app/BurmaTown.tsx:629 | An empty query keeps every business in order. |
| App.QueryCaseIgnored | app/BurmaTown.tsx:628 | The query's case does not matter. |
| App.CollectSpec | app/BurmaTown.tsx:510-526 | The collected people are candidates that follow the user, with no repeated email. Every following candidate's email not seen before is collected. |
| App.PostAuthors | app/BurmaTown.tsx:516-519 | Every post author with an email is a candidate. |
| App.QuestionAuthors | app/BurmaTown.tsx:522-525 | Every question author with an email is a candidate, typed general. |
| App.FollowerCandidates | app/BurmaTown.tsx:512-526 | Users come first, then post authors, then question authors. |
| App.FollowerList | app/BurmaTown.tsx:505-528 | A guest has no followers. Otherwise each email appears at most once, and everyone listed follows the user. Every user, post author or question author who follows the user is listed. |
| Feed.Insert | views/FeedView.tsx:49 | Insertion adds exactly the one entry. |
| Feed.InsertNewest | views/FeedView.tsx:49 | Insertion keeps a list newest first. |
| Feed.SortNewest | views/FeedView.tsx:49 | The sort is a permutation of its input, ordered by non-increasing `createdAt`. |
| Feed.AtAppend | views/FeedView.tsx:46-49 | The entries at one time split across a concatenation. |
| Feed.AtInsert | views/FeedView.tsx:49 | An inserted entry goes after the entries already at its time. |
| Feed.SortStable | views/FeedView.tsx:49 | At every time, the sorted entries keep their input order. |
| Feed.CombinedSpec | views/FeedView.tsx:46-49 | The feed holds every post and question exactly once, newest first. Among equal times, the posts come first in their order, then the questions in theirs. |
| Feed.EveryEntryShown | views/FeedView.tsx:47-48 | Every post and every question is in the feed, wrapped in its own kind. |
| CreatePostForm.MissingField | components/CreatePost.tsx:42-48 | A business post needs only a non-blank description. Other posts need a non-blank title and body. The title's error comes first. |
| CreatePostForm.Submit | components/CreatePost.tsx:40-71 | Missing fields keep the form and never call `onCreate`. Otherwise `onCreate` gets the computed title, the trimmed body, and the media only when there are some. Success clears the form, and failure keeps it with an error toast. |
| CreatePostForm.BusinessTitle | components/CreatePost.tsx:43-55 | A business title is the non-empty start of the trimmed description's first line, at most 120 characters. So the "Post" fallback is never used. |
| CreatePostForm.SubmissionNonEmpty | components/CreatePost.tsx:42-60 | Every submission that reaches `onCreate` has a non-empty title and body. |
| CreatePostForm.Succeeded | components/CreatePost.tsx:114 | Dropping failed reads keeps exactly the non-empty results. |
| CreatePostForm.AddMedia | components/CreatePost.tsx:107-118 | The list never grows past 10. The existing media stay first. At most the remaining slots' worth of reads is taken, and failed reads are dropped. |
| CreatePostForm.DropIndexAt | components/CreatePost.tsx:141 | Dropping a valid index removes exactly that item. |
| CreatePostForm.RemoveMediaSpec | components/CreatePost.tsx:141 | Removing at a valid index drops exactly that item and keeps the others in order. Any other index changes nothing. |
| Text.TrimEmptyIffBlank | components/CreatePost.tsx:42-48 | `trim()` gives the empty string exactly when the text is all whitespace. |
| Text.SplitJoin | app/BurmaTown.tsx:171 | Joining the pieces of a split with the separator gives back the string. |
| Text.SplitAtFirst | app/BurmaTown.tsx:171 | Splitting at the first separator gives the text before it, then the split of the rest. |
| Wrappers.OrElse | hooks/usePosts.ts:44 | `x || fallback` keeps a truthy string and otherwise gives the fallback. |
| Types.Bump | hooks/usePosts.ts:70 | `Math.max(0, n ± 1)` is never negative. It moves by exactly one away from the clamp. |
| Types.MapWhere | hooks/usePosts.ts:70 | Only the picked elements are rewritten, and the others are kept in place. |
| Types.AuthorName | hooks/usePosts.ts:44 | The author name is never empty: it is the user's name, or "User". |
| Types.WithoutMembers | hooks/usePosts.ts:32 | Filtering keeps exactly the members that are not dropped. |
| Types.WithoutAppend | hooks/usePosts.ts:32 | Filtering works item by item: the filter of a concatenation is the concatenation of the filters, so the order is kept. |
| Types.RollbackAfterAppend | hooks/usePosts.ts:47-48 | Filtering out a freshly appended item restores the list. |
| Types.RollbackAfterPrepend | hooks/usePosts.ts:31-32 | Filtering out a freshly prepended item restores the list. |

## Left out

- Rendering, JSX and event wiring in the components and views are not modelled. They are layout, and they hold no logic beyond what the hooks already do.
- `lib/api.ts` (HTTP, token refresh, error decoding) is not modelled. A remote call is an abstract outcome: `Returns` or `Throws` for the optimistic combinator, an optional server id for creates, and a success predicate per attempt for the queues.
- Timers and `window` events are not modelled. The flush timer is an explicit "timer fires" step, and the flush event is recorded in the queue's event list.
- `localStorage` and JSON (de)serialisation are not modelled. The store is an abstract map from keys to entries. An entry is unreadable, users, a session or stored actions. An unreadable entry stands for missing or unparsable JSON. Stored values are assumed to be well shaped.
- `uid()`, `Date.now()` and the `Math.random` jitter are not modelled. Fresh ids and the clock are parameters, and only the un-jittered delay is modelled.
- The regex internals of `sanitizeHtml` are not modelled. The script and handler removals are abstract functions. Length facts that depend on them only shortening are stated under that assumption.
- Security.SanitizeHtml: the bound "never longer than the input" is proved only for strippers that shorten their input. The regexes are not modelled.
- Upper and lower case cover ASCII only, plus `ß` → `SS` for upper case. The rest of Unicode case mapping and UTF-16 code units are not modelled.
- In `t`, the regex treatment of special characters in a var name is not modelled. Substitution is literal replacement of `{name}`.
- I18n.SubstituteOne: `String.prototype.replace` with a string replacement expands `$&`, `$$`, `` $` `` and `$'` inside the value. The model inserts the value literally, so the lemma matches JavaScript only for values without `$`.
- Storage.LoadUsers: `JSON.parse` returns whatever was stored. A stored `null`, object or number comes back as that value rather than as `[]`. The model assumes the users entry, when readable, is a list of users.
- Storage.LoadSession: likewise, a stored value that is not a session comes back as parsed rather than as no session. The model assumes a readable session entry is a session or `null`.
- The `try/catch` around `getUserActions` in the follower list is not modelled, because the model's lookup cannot throw.
- Reading files as data URLs is not modelled. A selection is the list of strings the reads produced, and a failed read is `""`.
- Feed.SortNewest: `Array.prototype.sort` is modelled as a stable insertion sort. It orders exactly as any stable sort with that comparator does, but the engine's algorithm is not modelled.
- App.FollowerList: the `seen` guard before each lookup is folded into the collector. The guard does not change the result.
- The server fetch in the hydration effect (app/BurmaTown.tsx:311-357) is not modelled. When `API_URL` is set, it replaces `posts` and `questions` with the server's lists, mapped with defaults, and marks hydration done. It is network I/O, so the model starts from the local lists.
- JavaScript's object-key semantics are not modelled. The catalogs and the scrubbed objects are plain finite maps and key lists. So `t("constructor")` or a language named `"toString"` does not reach prototype members (lib/i18n.tsx:50), and `Object.entries` does not list integer-like var keys first (lib/i18n.tsx:51). In `scrubObject`, assigning `clone["__proto__"]` sets the prototype rather than adding a key (lib/security.ts:31); the model adds the key.
- `lib/AdapterContext.tsx`'s precedence rule is not modelled: the hooks take the chosen adapter as given.
- Not modelled at all: `followUser`/`unfollowUser`, the `createComment`/`createReply` API calls beyond their ids, `uiState`, `observability`, `perf`, `AuthModal`, `BusinessProfile`, the service worker, the build scripts and `main.tsx`. These are I/O, timing or form flows outside the modelled logic.

## Findings

| source | as written | input that shows it | evidently intended | confidence | as-written member | corrected member |
|---|---|---|---|---|---|---|
| lib/helpers.ts:12-18 | `initials` cuts to two characters before `toUpperCase()`, which can lengthen a string | the name "ß ß" gives "SSSS", four characters | initials are at most two characters | not executed | Helpers.InitialsAsWritten (shown by Helpers.InitialsAsWrittenTooLong) | Helpers.Initials |
