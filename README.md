# Email labelling pipeline, modelled in Dafny

This project models the deterministic core of an e-mail triage
assistant. The assistant fetches a user's Gmail messages and groups them
into conversation threads. Each thread then gets one of six labels:
"to do", "awaiting reply", "fyi", "done", "spam" or "history". An old
thread is labelled "history" by a date rule. Any other thread is
classified by a language model, whose free-text answer is parsed. The
label is then applied in Gmail to the e-mails of the thread, one call
each. Only "to do" e-mails stay in the inbox.

The models are grouped one module per source file:

- `EmailModels`: the label enumeration and the e-mail record. Timestamps
  are integer seconds; an optional offset marks a time-zone-aware
  datetime.
- `ThreadOrganizer`: grouping by thread id and stable sorting by date.
  It also covers the thread summaries, the subject cleaner, filtering
  and size statistics.
- `DateUtils` and `HistoryChecker`: the two age rules. The first is
  instant-based and strict. The second counts whole days, drops the
  offset, and is inclusive.
- `TextProcessing`: e-mail body cleaning, the extractive summary and the
  meeting detector.
- `ThreadEmailClassifier`, `EmailClassifier`, `ClassificationParsing`:
  the per-thread and per-e-mail classifiers and the response parser.
  The language model is a function from prompt to answer.
- `EmailClassifierAgent`: fanning a thread's label out to its e-mails,
  statistics and filters.
- `EnhancedEmailProcessor`: the batch processor with its counters, and
  its report.
- `GmailService`: the label and message calls of the Gmail API, as a
  mailbox object. Its failures are a fixed function of the call.
- `GmailManagerAgent`, `SetupLabels`, `LabelMappingFix`: label-name
  resolution, the inbox rule, label set-up and the script that reuses
  existing labels.
- `WebhookHandlers`: push-notification validators and the response
  builder.

Helper modules: `Wrappers` (Option, Result), `Text` (ASCII string
helpers), `Collections` (insertion-ordered dictionaries and counters,
filters) and `Sorting` (a stable insertion sort).

State that the source changes in place is modelled with classes:

- the processor's statistics;
- the history checker's threshold;
- the manager's log of applied labels;
- the set-up script's index of existing labels;
- the mailbox.

Each loop of the source that updates state or calls the mailbox is a
method, proved against a specification function of its inputs or of the
old state. The lemmas beside that function state the property the source
promises. Two short search loops that only compute a value are
functions: the required-field loops of the webhook validators
(`WebhookHandlers.FirstMissing`) and the missing-label loop of
`fixed_email_labeling` (`LabelMappingFix.Missing`).

## Model

| member | source | states |
|---|---|---|
| EmailModels.LabelsDistinct | models/email_models.py:6-12 | the label enumeration has exactly six members, with pairwise distinct values |
| EmailModels.LabelFromValue | models/email_models.py:6-12 | looking a label up by its value gives the member with that value, and there is always exactly one such member |
| EmailModels.NewEmailMessage | models/email_models.py:14-25 | a record built from the seven required fields has those fields; cc and bcc default to empty lists, labels to empty and is_thread_latest to false |
| DateUtils.GetDaysAgo | utils/date_utils.py:15-17 | the cutoff is a UTC datetime exactly the given number of days before now |
| DateUtils.IsOlderThanDays | utils/date_utils.py:7-12 | a date is older than d days iff its instant is more than d days before now (strict) |
| DateUtils.OlderIffBeforeDaysAgo | utils/date_utils.py:9-17 | for the same now, being older than d days is the same as being before the get_days_ago cutoff |
| DateUtils.ExactlyDaysOldIsNotOlder | utils/date_utils.py:12 | a date exactly d days old is not older, and one second earlier is |
| DateUtils.OlderMonotone | utils/date_utils.py:9-12 | being older than d days implies being older than any fewer days |
| DateUtils.NaiveReadAsUtc | utils/date_utils.py:10-11 | a naive date is judged exactly as the same wall time at UTC |
| WebhookHandlers.FirstMissing | push_notification/monitoring/webhook_handlers.py:116-118 | the first required field that is missing or empty; none iff all are present |
| WebhookHandlers.ValidateGmailNotification | push_notification/monitoring/webhook_handlers.py:112-125 | the notification is valid iff user_email and history_id are present and the address contains '@' and '.' |
| WebhookHandlers.GmailNotificationMissing | push_notification/monitoring/webhook_handlers.py:114-118 | a missing user_email is reported first, then a missing history_id, with the field's name |
| WebhookHandlers.GmailNotificationFormat | push_notification/monitoring/webhook_handlers.py:120-125 | with both fields present, a string address is valid iff it has '@' and '.', else "Invalid email format" |
| WebhookHandlers.ValidateProcessEmailRequest | push_notification/monitoring/webhook_handlers.py:128-136 | valid iff user_email and message_id are both present, and then the message is "Valid" |
| WebhookHandlers.ProcessEmailRequestMissing | push_notification/monitoring/webhook_handlers.py:128-136 | a missing user_email is reported first, then a missing message_id, each as "Missing required field: " and its name |
| WebhookHandlers.CreateWebhookResponse | push_notification/monitoring/webhook_handlers.py:67-81 | success and timestamp are always present; data is present iff success and the data is non-empty; error is present iff failure and the error is non-empty |
| WebhookHandlers.HandleGmailNotification | push_notification/monitoring/webhook_handlers.py:83-106 | success iff both ids are present; success echoes them with status "queued"; failure carries "Missing user_email or history_id" |
| WebhookHandlers.ParsePubsubMessage | push_notification/monitoring/webhook_handlers.py:39-65 | a result exists iff the envelope has a truthy message object with data that decodes; it has exactly the five keys, the e-mail address and history id of the decoded notification, the message id and publish time of the message, and its attributes or an empty object |
| ThreadOrganizer.SortByDate | utils/thread_organizer.py:32-33 | sorting a thread by date keeps exactly its e-mails (a permutation) |
| ThreadOrganizer.SortByDateSortedStable | utils/thread_organizer.py:33 | the sorted thread is non-decreasing by instant, and e-mails with equal dates keep their input order (stable sort) |
| ThreadOrganizer.ThreadEmailsMembers | utils/thread_organizer.py:23-29 | a thread's group holds exactly the input e-mails with that thread id |
| ThreadOrganizer.ThreadOrderMembers | utils/thread_organizer.py:26-27 | a thread id is a key of the result iff some input e-mail carries it |
| ThreadOrganizer.Grouped | utils/thread_organizer.py:21-29 | the groups are keyed by the thread ids in order of first occurrence |
| ThreadOrganizer.GroupedPartition | utils/thread_organizer.py:21-29 | the concatenated groups hold exactly the input e-mails, each once |
| ThreadOrganizer.GroupEmails | utils/thread_organizer.py:21-29 | the grouping loop builds the groups of the specification, keyed in order of first occurrence |
| ThreadOrganizer.SortEachThread | utils/thread_organizer.py:32-33 | every group sorted by date, or the comparison error when a group mixes naive and aware dates |
| ThreadOrganizer.OrganizeEmailsByThread | utils/thread_organizer.py:11-35 | the result is the organized threads of the input, or the comparison error |
| ThreadOrganizer.Organized | utils/thread_organizer.py:11-35 | organizing succeeds iff no group mixes naive and aware dates, else it is the comparison error; on success there is one thread per group, with the group's id and the same e-mails |
| ThreadOrganizer.OrganizedPartition | utils/thread_organizer.py:21-33 | the concatenated groups are a permutation of the input: every e-mail is kept exactly once |
| ThreadOrganizer.ThreadOrderFirstSeen | utils/thread_organizer.py:23-29 | the thread keys appear in order of the first occurrence of their id in the input |
| ThreadOrganizer.OrganizedIds | utils/thread_organizer.py:21-35 | thread ids are distinct and in first-seen order; every e-mail of a group has the group's id and comes from the input; no group is empty |
| ThreadOrganizer.OrganizedSortedStable | utils/thread_organizer.py:32-33 | each group is sorted by date, and equal dates keep their input order |
| ThreadOrganizer.OrganizedFailureWitness | utils/thread_organizer.py:33 | organizing fails only when two e-mails of one thread mix a naive and an aware date |
| ThreadOrganizer.OrganizedFailsOnMixedThread | utils/thread_organizer.py:33 | two e-mails of one thread with a naive and an aware date make organizing fail |
| ThreadOrganizer.ParticipantsMembers | utils/thread_organizer.py:57-62 | the participants are exactly the senders, to- and cc-addresses of the thread, and never only a bcc address |
| ThreadOrganizer.CollectParticipants | utils/thread_organizer.py:57-62 | the participant loop computes that set |
| ThreadOrganizer.SummarizeThread | utils/thread_organizer.py:53-76 | the summary of one non-empty thread is the specified thread info |
| ThreadOrganizer.ThreadInfoOfProperties | utils/thread_organizer.py:53-76 | the info keeps the id and the size, holds the e-mails sorted by date, takes the cleaned subject of the earliest e-mail, and dates from the earliest and the latest e-mail |
| ThreadOrganizer.GetThreadInfo | utils/thread_organizer.py:37-83 | the loop and sort compute the specified info list, or the comparison error |
| ThreadOrganizer.InfosOfSkipsEmpty | utils/thread_organizer.py:49-51 | empty threads are skipped: one info per non-empty thread, in order |
| ThreadOrganizer.ThreadInfoOrdered | utils/thread_organizer.py:80-81 | the infos are sorted by the last-activity string, largest first (string order, not date order), as a stable permutation |
| ThreadOrganizer.CleanSubject | utils/thread_organizer.py:85-95 | the cleaned subject has no leading or trailing whitespace, and its only whitespace is single spaces |
| ThreadOrganizer.CleanSubjectRemovesOnePrefix | utils/thread_organizer.py:90-93 | one Re:/Fwd:/Fw: prefix, in any case, is removed; a second prefix stays ("Re: Re: x" gives "Re: x") |
| ThreadOrganizer.CleanSubjectWithoutPrefix | utils/thread_organizer.py:93 | without a prefix the subject is only whitespace-normalised |
| ThreadOrganizer.LatestIndex | utils/thread_organizer.py:125 | max by date: the first e-mail that no other e-mail is later than |
| ThreadOrganizer.FilterThreadsByCriteria | utils/thread_organizer.py:97-132 | the loop computes the specified filter, including the first exception it raises |
| ThreadOrganizer.FilterFailureSticks | utils/thread_organizer.py:115-130 | an exception on one thread ends the whole filter with that exception |
| ThreadOrganizer.JudgeMeets | utils/thread_organizer.py:117-130 | a thread raises iff it cannot be judged; otherwise it is kept iff size >= min, max is falsy or size <= max, and days_old is falsy or the latest e-mail is at most days_old whole days old |
| ThreadOrganizer.FilterRaisesIffNotJudgeable | utils/thread_organizer.py:115-130 | the filter succeeds iff every thread can be judged without raising |
| ThreadOrganizer.FilterKeepsMeeting | utils/thread_organizer.py:115-132 | a successful filter keeps exactly the threads meeting the criteria, in order |
| Collections.Max | utils/thread_organizer.py:155 | the largest element, which is one of the elements (also `max(ages)` at agents/history_checker_agent.py:205) |
| ThreadOrganizer.SumSizesFlatten | utils/thread_organizer.py:146-147 | the sum of the thread sizes is the number of e-mails |
| ThreadOrganizer.StatisticsTotals | utils/thread_organizer.py:136-152 | total threads and e-mails are counted, the average is e-mails over threads, and empty input gives zeros |
| ThreadOrganizer.StatisticsLongest | utils/thread_organizer.py:155 | longest_thread is the size of some thread and no thread is longer |
| ThreadOrganizer.StatisticsCounts | utils/thread_organizer.py:153-161 | single + multi + empty threads = total threads; the four size buckets sum to single + multi |
| HistoryChecker.CheckAge | agents/history_checker_agent.py:38-61 | the check reports the e-mail's id, subject and date, its whole-day age, the threshold, and history iff the age is at least the threshold, with the matching reasoning |
| HistoryChecker.AgeChecksPointwise | agents/history_checker_agent.py:88-90 | one age check per input e-mail, in input order |
| HistoryChecker.HistoryCheckerAgent.constructor | agents/history_checker_agent.py:26 | the threshold starts at 7 days |
| HistoryChecker.HistoryCheckerAgent.CheckMultipleEmails | agents/history_checker_agent.py:71-108 | the ids are split into history and recent ids in input order; the counts are their lengths; the total is the input size |
| HistoryChecker.HistoryCheckerAgent.GetHistoryEmails | agents/history_checker_agent.py:124-134 | exactly the e-mails that are history, in order |
| HistoryChecker.HistoryCheckerAgent.GetRecentEmails | agents/history_checker_agent.py:140-150 | exactly the e-mails that are not history, in order |
| HistoryChecker.HistoryCheckerAgent.SetHistoryThreshold | agents/history_checker_agent.py:156-158 | only the threshold changes, to the given value |
| HistoryChecker.HistoryCheckerAgent.GetAgeStatistics | agents/history_checker_agent.py:161-208 | the statistics of the whole-day ages of the e-mails |
| HistoryChecker.Bucket | agents/history_checker_agent.py:191-202 | each age falls in exactly one of the six buckets: at most 1, 2-3, 4-7, 8-14, 15-30, over 30 days |
| Collections.Min | agents/history_checker_agent.py:206 | the smallest element, which is one of the elements |
| HistoryChecker.DaysSinceFloor | agents/history_checker_agent.py:40-43 | the age is the elapsed time rounded down to whole days |
| HistoryChecker.OffsetIgnored | agents/history_checker_agent.py:41 | a time-zone offset is dropped, not converted: it never changes the decision |
| HistoryChecker.DayCountBoundary | agents/history_checker_agent.py:46 | an e-mail exactly threshold days old is history, and one second younger is not |
| HistoryChecker.RulesDisagreeAtBoundary | agents/history_checker_agent.py:46 | at exactly the threshold, the day-count rule says history while the instant rule of the date utilities does not |
| HistoryChecker.HistoryRecentPartition | agents/history_checker_agent.py:124-154 | the history and recent lists are complementary and their lengths sum to the input size |
| HistoryChecker.DistributionTotal | agents/history_checker_agent.py:185-202 | the six bucket counts sum to the number of ages |
| HistoryChecker.AgeStatisticsTotal | agents/history_checker_agent.py:164-202 | the total is the number of e-mails, and so is the sum of the buckets (zero buckets for no e-mails) |
| HistoryChecker.AgeStatisticsRange | agents/history_checker_agent.py:205-206 | newest <= every e-mail's age <= oldest |
| TextProcessing.FirstSignature | tools/text_processing.py:15 | the first line that is "--" followed only by whitespace, or none |
| TextProcessing.SignatureCut | tools/text_processing.py:15 | the signature line and everything after it are removed (the line becomes empty); no signature line is left |
| TextProcessing.DropQuoted | tools/text_processing.py:18-23 | the loop keeps exactly the lines that do not start with '>' once stripped, in order |
| TextProcessing.CollapseBlankRuns | tools/text_processing.py:28 | blank-line runs collapse: no three consecutive newlines remain |
| TextProcessing.CleanEmailContent | tools/text_processing.py:9-31 | the method computes the specified cleaning: signature cut, quoted lines dropped, blank runs collapsed, stripped |
| TextProcessing.CleanContentShape | tools/text_processing.py:11-29 | empty content gives ""; the result has no leading or trailing whitespace and no three consecutive newlines |
| TextProcessing.CleanDashesAfterSpace | tools/text_processing.py:15-29 | a signature line that only appears after the final strip survives: " --" cleans to "--" |
| TextProcessing.CleanNotIdempotent | tools/text_processing.py:9-31 | cleaning is not idempotent: cleaning " --" twice gives "", not "--" |
| TextProcessing.Sentences | tools/text_processing.py:39-40 | the sentences are non-empty stripped pieces without any of ".!?" |
| TextProcessing.Summarize | tools/text_processing.py:33-53 | the summary raises (index out of range) iff the text is not empty, has no sentence and the limit is negative; an empty text, or one within the limit, is returned unchanged |
| TextProcessing.SummaryWithinLimit | tools/text_processing.py:33-53 | with a limit of at least one, the summary has at most that many sentences, each a sentence of the text, it has sentences iff the text has, and it starts with the text's first sentence |
| TextProcessing.PickedSentences | tools/text_processing.py:42-53 | a summary that cuts the text has as sentences exactly the first; the first and the last; or the first, the middle (n//2) and the last |
| TextProcessing.SummaryNonPositiveLimit | tools/text_processing.py:42-53 | with a limit of zero or less, a text with sentences is cut to three sentences, more than the limit asks |
| TextProcessing.SummarizeStable | tools/text_processing.py:33-53 | summarising a summary with the same limit changes nothing |
| TextProcessing.DetectMeetingRequest | tools/text_processing.py:55-67 | true iff the lowercased content contains one of the 14 keywords; empty content gives false |
| TextProcessing.DetectMeetingWithin | tools/text_processing.py:66-67 | text containing a meeting request still does once more text surrounds it |
| ClassificationParsing.FirstMatch | agents/thread_email_classifier.py:164-166 | re.search: the first position where the keyword and its group match, with no earlier match |
| ClassificationParsing.Group | agents/thread_email_classifier.py:164-166 | a group is found iff the pattern matches somewhere; a number group holds only digits and dots; a single-line group has no newline |
| ClassificationParsing.LabelFromText | agents/thread_email_classifier.py:169-184 | the label is the first of to do/todo, awaiting, fyi, done, spam, history that the text contains, and FYI when none is |
| ClassificationParsing.FallbackLabel | agents/thread_email_classifier.py:205-218 | the fallback scan tests to do/todo, awaiting, spam, done, history in that order, else FYI |
| ClassificationParsing.ParseDecimal | agents/thread_email_classifier.py:188 | float() of a digits-and-dots token succeeds iff it has at most one dot and at least one digit, with a non-negative value |
| ClassificationParsing.ParseNatRoundTrip | agents/thread_email_classifier.py:188 | parsing the decimal digits of a whole number gives that number back |
| ClassificationParsing.Clamp | agents/thread_email_classifier.py:189 | the confidence is clamped to [0, 1], and a value inside is kept |
| ClassificationParsing.Truncate | agents/thread_email_classifier.py:196 | text over the limit is cut to the limit plus "..."; shorter text is kept |
| ClassificationParsing.ParseResponse | agents/thread_email_classifier.py:155-220 | the parsed confidence always lies in [0, 1] |
| ClassificationParsing.MalformedFallsBack | agents/thread_email_classifier.py:187-220 | a confidence token float() rejects (two dots, or no digit) gives the fallback label, 0.5 and "Fallback parsing: " plus the error |
| ClassificationParsing.WellFormedParses | agents/thread_email_classifier.py:157-198 | otherwise: no Classification gives FYI, else the label of the stripped lowercased capture; no Confidence gives 0.5, else the clamped value; no Reasoning gives the default text, else at most the limit plus 3 characters |
| ClassificationParsing.ThreadReasoningShape | agents/thread_email_classifier.py:192-196 | the thread parser's reasoning has at most 403 characters, with whitespace collapsed to single spaces |
| ClassificationParsing.EmailReasoningOneLine | agents/email_classifier.py:151-154 | the single-e-mail parser's reasoning has at most 203 characters, all on one line |
| ThreadEmailClassifier.ErrorResponse | agents/thread_email_classifier.py:91-99 | any error gives FYI with confidence 0.3 and the thread's size |
| ThreadEmailClassifier.SenderTag | agents/thread_email_classifier.py:115-124 | the first e-mail is INITIATOR; a later one is SAME_SENDER iff its sender equals the previous e-mail's sender, RESPONDER otherwise |
| ThreadEmailClassifier.Blocks | agents/thread_email_classifier.py:105-136 | one block per e-mail, in order |
| ThreadEmailClassifier.InterleaveLayout | agents/thread_email_classifier.py:136-140 | block k sits at its place in the context, and each e-mail after the first is followed by "--- EMAIL k builds upon EMAIL(S) 1-(k-1) ---" |
| ThreadEmailClassifier.BuildThreadContext | agents/thread_email_classifier.py:101-142 | the loop builds the newline-joined interleaving of blocks and relation lines |
| ThreadEmailClassifier.Classification | agents/thread_email_classifier.py:32-99 | the response counts the thread's e-mails and has a confidence in [0, 1]; an empty thread is FYI with 0.0 and id "unknown"; dates that cannot be compared give FYI with 0.3 |
| ThreadEmailClassifier.ClassifyThread | agents/thread_email_classifier.py:32-99 | the method computes the specified classification and calls the model at most once |
| ThreadEmailClassifier.ClassifyMultipleThreads | agents/thread_email_classifier.py:144-153 | one classification per thread, in thread order |
| ThreadEmailClassifier.SortedEnds | agents/thread_email_classifier.py:53-56 | the first sorted e-mail is the earliest and the last is the latest, both from the thread |
| ThreadEmailClassifier.LatestOldIffAllOld | agents/thread_email_classifier.py:55-57 | the latest e-mail is old iff every e-mail of the thread is old |
| ThreadEmailClassifier.OldThreadIsHistory | agents/thread_email_classifier.py:56-64 | a thread whose e-mails are all old is History with confidence 1.0, the earliest e-mail's thread id and the thread size, whatever the model answers |
| ThreadEmailClassifier.RecentThreadAsksModel | agents/thread_email_classifier.py:66-99 | otherwise the model is asked about the progressive context; its failure gives the error response, its answer the parsed label, confidence and reasoning |
| EmailClassifier.ErrorResponse | agents/email_classifier.py:70-77 | any error gives the e-mail's id, FYI and confidence 0.3 |
| EmailClassifier.ContextLine | agents/email_classifier.py:104-108 | a context line starts with "User: " iff the message's sender is the classified e-mail's first recipient |
| EmailClassifier.Latest | agents/email_classifier.py:103 | the last five messages of the sorted context, or all of them when fewer |
| EmailClassifier.ContextLines | agents/email_classifier.py:103-109 | one line per shown message, in order |
| EmailClassifier.ThreadContextSummary | agents/email_classifier.py:94-111 | no or empty context gives "No thread context available"; it fails only when the context dates cannot be compared |
| EmailClassifier.PrepareThreadContext | agents/email_classifier.py:94-111 | the method computes that summary |
| EmailClassifier.ContextParts | agents/email_classifier.py:102-109 | the loop builds one summary line per e-mail shown, in order |
| EmailClassifier.ContextShowsLatest | agents/email_classifier.py:99-103 | the context shows 1 to 5 messages of the thread, sorted, and none it leaves out is later than one it shows |
| EmailClassifier.Classification | agents/email_classifier.py:31-77 | the response keeps the e-mail's id and has a confidence in [0, 1] |
| EmailClassifier.ClassifyEmail | agents/email_classifier.py:31-77 | the method computes that classification |
| EmailClassifier.ClassifiedAlone | agents/email_classifier.py:79-92 | the answers have one entry per input e-mail, in order, each the classification of that e-mail without thread context |
| EmailClassifier.ClassifyMultipleEmails | agents/email_classifier.py:79-92 | the loop returns exactly those answers, one per input e-mail, in order |
| EmailClassifier.OldEmailIsHistory | agents/email_classifier.py:35-41 | an old e-mail is History with confidence 1.0, whatever its context or the model |
| EmailClassifier.RecentEmailAsksModel | agents/email_classifier.py:43-68 | a recent e-mail without thread context is shown to the model with its first 1000 characters, plus "..." when longer, and the parsed answer or the error response is returned |
| EmailClassifierAgent.ThreadRecords | agents/email_classifier_agent.py:67-79 | one record per e-mail of the thread, carrying the thread's label, confidence, reasoning and size |
| EmailClassifierAgent.Tally | agents/email_classifier_agent.py:81-83 | the label counts sum to the number of records |
| EmailClassifierAgent.TallyCounts | agents/email_classifier_agent.py:81-83 | the count of a label is the number of records carrying it |
| EmailClassifierAgent.AppendThreadRecords | agents/email_classifier_agent.py:67-83 | the inner loop appends the thread's records and keeps the label counts equal to the tally of all records so far |
| EmailClassifierAgent.ClassifyEmails | agents/email_classifier_agent.py:32-125 | the method computes the specified outcome: zeros and no success key for empty input; a failure outcome when organizing raises; otherwise the records of every thread |
| EmailClassifierAgent.RecordsShape | agents/email_classifier_agent.py:61-79 | record k belongs to the k-th e-mail of the concatenated threads and carries its own thread's classification |
| EmailClassifierAgent.ClassifyEmailsTotals | agents/email_classifier_agent.py:103-109 | on success: one record per input e-mail, the label counts sum to the input size, threads_processed is the number of threads |
| EmailClassifierAgent.ClassifyEmailsLabels | agents/email_classifier_agent.py:61-79 | every record's label is the classification of the thread that holds its e-mail |
| EmailClassifierAgent.ClassifySingleEmail | agents/email_classifier_agent.py:127-161 | the result succeeds and keeps the e-mail's ids, subject and sender; the thread is the context when one is given and not empty, else the e-mail alone; the label, confidence and reasoning are that thread's classification, and thread_email_count its size |
| EmailClassifierAgent.Confidences | agents/email_classifier_agent.py:199 | the confidences are those of the records that have one |
| EmailClassifierAgent.RangesSplit | agents/email_classifier_agent.py:215-221 | high counts confidences >= 0.8, medium those in [0.5, 0.8), low the rest; the three sum to the number of confidences |
| EmailClassifierAgent.GetClassificationStats | agents/email_classifier_agent.py:178-228 | the loop computes the specified statistics |
| EmailClassifierAgent.StatsTotals | agents/email_classifier_agent.py:198-227 | the total is the number of records, the label counts sum to it, and the confidence buckets sum to the number of confidences |
| EmailClassifierAgent.FilterByLabel | agents/email_classifier_agent.py:234-252 | exactly the records with that label, in order |
| EmailClassifierAgent.ActionableEmails | agents/email_classifier_agent.py:254-276 | exactly the "to do" and "awaiting reply" records, in order |
| EmailClassifierAgent.InboxEmails | agents/email_classifier_agent.py:278-297 | exactly the "to do" records, in order |
| EmailClassifierAgent.ActionableSplit | agents/email_classifier_agent.py:265-292 | actionable = to do + awaiting reply in number; the inbox e-mails are the "to do" filter and are all actionable |
| EnhancedEmailProcessor.NormalizeDatetime | enhanced_email_processor.py:77-84 | the result is a UTC datetime at the same instant; a naive datetime is tagged UTC unchanged; conversion fails only for an aware datetime whose UTC time is out of range |
| EnhancedEmailProcessor.EmailIds | enhanced_email_processor.py:239 | the ids of all the thread's e-mails, in order |
| EnhancedEmailProcessor.Senders | enhanced_email_processor.py:240-241 | the participants are the senders and to-addresses of the thread (not cc) |
| EnhancedEmailProcessor.Decide | enhanced_email_processor.py:171-284 | a thread gets no result iff it is empty or its dates cannot be sorted; every result has the thread's id, its size and all its e-mail ids |
| EnhancedEmailProcessor.DecideFollowsInstantRule | enhanced_email_processor.py:188-216 | a thread whose latest date converts is automatic_history (History, 1.0) iff that date is strictly before now minus the threshold; otherwise it copies the classifier's label and confidence with thread_context_analysis |
| EnhancedEmailProcessor.DecideDateError | enhanced_email_processor.py:251-273 | the method is error_fallback iff the latest date cannot be converted, and then the result is FYI, 0.3, no participants |
| EnhancedEmailProcessor.AddLabels | enhanced_email_processor.py:231-235 | counting each result's label adds exactly one per result to the thread counts |
| EnhancedEmailProcessor.ThreadsAccounted | enhanced_email_processor.py:171-284 | every thread is either a successful thread or a processing error: successes + errors = number of threads |
| EnhancedEmailProcessor.FixedEmailProcessor.constructor | enhanced_email_processor.py:30-43 | all counters start at zero, the label counts empty, the threshold at 7 |
| EnhancedEmailProcessor.FixedEmailProcessor.ProcessThread | enhanced_email_processor.py:171-284 | one pass of the loop decides the thread as specified |
| EnhancedEmailProcessor.FixedEmailProcessor.ProcessThreadsFixed | enhanced_email_processor.py:158-291 | the results are the specified per-thread results; the thread label counts grow by their labels; the error and success counters grow by the failed and successful threads; nothing else changes |
| EnhancedEmailProcessor.Lookup | enhanced_email_processor.py:306 | the dictionary by thread id: a thread has a classification iff some result has its id, and a later result overrides an earlier one |
| EnhancedEmailProcessor.EmailsPassCounts | enhanced_email_processor.py:323-358 | each e-mail of a classified thread adds exactly one to labeled or errors, one detail and one to its label's e-mail count; a dry run adds no error |
| EnhancedEmailProcessor.SkippedThread | enhanced_email_processor.py:312-316 | a thread without a classification counts all its e-mails as skipped and changes nothing else |
| EnhancedEmailProcessor.DryRunLabelsAll | enhanced_email_processor.py:325-338 | in a dry run every e-mail counts as labeled, no label call is consulted, and no detail says applied |
| EnhancedEmailProcessor.LabelPassCounts | enhanced_email_processor.py:293-365 | labeled + skipped + errors grows by the number of e-mails of all threads, and the e-mail label counts grow by the number of details |
| EnhancedEmailProcessor.FixedEmailProcessor.LabelThreadEmails | enhanced_email_processor.py:323-358 | the inner loop computes the specified pass over one thread's e-mails |
| EnhancedEmailProcessor.FixedEmailProcessor.ApplyThreadLabelsToEmails | enhanced_email_processor.py:293-365 | the loop computes the specified pass over all threads and changes only the e-mail label counts |
| EnhancedEmailProcessor.MethodCounts | enhanced_email_processor.py:393-398 | the method counts sum to the number of thread results |
| EnhancedEmailProcessor.MethodCountsCount | enhanced_email_processor.py:393-398 | the count of a method is the number of results that used it |
| EnhancedEmailProcessor.FixedEmailProcessor.GenerateProcessingReport | enhanced_email_processor.py:367-400 | total e-mails processed = labeled + skipped + errors; the method counts are those of the results; the rest is copied from the statistics |
| EnhancedEmailProcessor.FetchedAccounted | enhanced_email_processor.py:107-140 | over the threads of the fetched e-mails, labelled + skipped + errors equals the number of fetched e-mails |
| EnhancedEmailProcessor.FixedEmailProcessor.ProcessThreads | enhanced_email_processor.py:115-150 | total_threads is the number of threads; the results, the thread and e-mail label counts, the errors and successes are those of the thread pass and the e-mail pass; the report copies them, with the method counts of the results and the statistics of the threads |
| EnhancedEmailProcessor.FixedEmailProcessor.ProcessAllEmails | enhanced_email_processor.py:86-156 | processed iff authenticated, some e-mails fetched and their dates sortable, each failure with its error; total_emails is set to the number fetched once e-mails arrive; a run that is not processed changes no other statistic; when processed, every statistic and the report are those of ProcessThreads on the organised threads, and the report accounts for every fetched e-mail exactly once |
| GmailService.Mailbox.List | setup_labels.py:55-68 | listing returns the current labels in order, or the failure |
| GmailService.Mailbox.Create | setup_labels.py:159-169 | creating adds one user label with the new id at the end, or fails and changes nothing |
| GmailService.Mailbox.Update | setup_labels.py:142-153 | renaming keeps ids and order and changes only that label's name, or fails and changes nothing |
| GmailService.Mailbox.Modify | agents/gmail_manager_agent.py:143-147 | an accepted modification is appended to the mailbox's record, a failed one changes nothing |
| Collections.MapOrSelf | agents/gmail_manager_agent.py:28-35 | the display name is the mapping's value, or the key itself when unmapped (also `LABEL_MAPPING.get(c, c)` in label_mapping_fix.py) |
| GmailManagerAgent.EveryLabelMapped | agents/gmail_manager_agent.py:28-35 | all six label values are mapped, to a name different from the key |
| GmailManagerAgent.ResolveFinds | agents/gmail_manager_agent.py:175-187 | the label resolved is the first listed label whose name is the display name or the key, or, for spam, equals a fallback name ignoring case; there is none iff no label matches |
| GmailManagerAgent.ResolveFirst | agents/gmail_manager_agent.py:175-187 | a matching label with no match before it is the one resolved |
| GmailManagerAgent.SystemSpamAlreadyMatched | agents/gmail_manager_agent.py:189-194 | the second search for the system SPAM label never finds anything the first search missed |
| GmailManagerAgent.GetOrCreate | agents/gmail_manager_agent.py:165-224 | the mailbox's labels stay as they are, or gain exactly one user label under the display name whose id is the one returned |
| GmailManagerAgent.ResolvePrefix | agents/gmail_manager_agent.py:175-187 | a key that resolves keeps resolving to the same label when labels are appended |
| GmailManagerAgent.GetOrCreateIdempotent | agents/gmail_manager_agent.py:165-224 | resolving a key a second time gives the same id and creates nothing; once listing and creating work, the key resolves afterwards |
| GmailManagerAgent.GetOrCreateStable | agents/gmail_manager_agent.py:165-224 | once a key resolves, resolving it on a mailbox that has only grown gives the same id and creates nothing |
| GmailManagerAgent.InboxRequest | agents/gmail_manager_agent.py:130-140 | the request adds exactly the label, and removes INBOX iff the label is not "to do" |
| GmailManagerAgent.OutsideInbox | agents/gmail_manager_agent.py:87-88 | the number of applied records whose label leaves the inbox |
| GmailManagerAgent.LabelingPass | agents/gmail_manager_agent.py:75-97 | every classification gives one log record or one error; each record has one request, which adds one label and removes INBOX iff its key is not "to do" |
| GmailManagerAgent.LabelingAllAccepted | agents/gmail_manager_agent.py:75-97 | when the server accepts every call, the log records are exactly the classifications that have both an e-mail id and a label, in order, with their subject or "" |
| GmailManagerAgent.LabelStepResolves | agents/gmail_manager_agent.py:75-97 | one more classification keeps every logged key resolving to the label id its request added |
| GmailManagerAgent.LabelingIdsResolve | agents/gmail_manager_agent.py:75-97 | while listing and creating succeed, every logged key resolves afterwards, without creating anything, to the id its request added |
| GmailManagerAgent.HistoryPass | agents/gmail_manager_agent.py:265-289 | every e-mail gives one log record or one error; each record is a "Historical email" under the history key, and its request adds the history label to that e-mail and removes INBOX |
| GmailManagerAgent.HistoryAccepted | agents/gmail_manager_agent.py:265-289 | the e-mails logged are exactly those whose request the server accepted, in order |
| GmailManagerAgent.RevertPass | agents/gmail_manager_agent.py:376-397 | every record gives one reverted record or one error; each request is for the record's e-mail, adds INBOX and removes one label |
| GmailManagerAgent.RevertResolved | agents/gmail_manager_agent.py:376-397 | on a mailbox where every logged key already resolves, with a server that accepts every call, nothing is created and request k removes exactly the id record k's key resolves to from record k's e-mail |
| GmailManagerAgent.ApplyThenRevert | agents/gmail_manager_agent.py:339-420 | reverting right after labelling, with a server that accepts every call, creates no label and removes from each logged e-mail exactly the label id it was given, restoring INBOX |
| GmailManagerAgent.GmailManager.constructor | agents/gmail_manager_agent.py:43 | the applied-label log starts empty |
| GmailManagerAgent.GmailManager.GetOrCreateLabel | agents/gmail_manager_agent.py:165-224 | the id returned and the labels afterwards are those GetOrCreate gives for the labels before; no message is touched |
| GmailManagerAgent.GmailManager.ApplyLabelWithInboxManagement | agents/gmail_manager_agent.py:123-163 | the label is resolved as GetOrCreate says; success means the one request adding that id, and removing INBOX iff the label is not "to do", was accepted and inbox_modified says so; failure returns the server's error and changes no message |
| GmailManagerAgent.GmailManager.ApplyLabelsToEmails | agents/gmail_manager_agent.py:45-121 | no classifications gives the empty result; a service that cannot be built gives the error and changes nothing; otherwise the log grows by LabelingPass's records, the mailbox receives its requests and ends with its labels, and the counts and errors are its |
| GmailManagerAgent.GmailManager.ApplyHistoryLabels | agents/gmail_manager_agent.py:235-308 | no ids gives the empty result; a service that cannot be built gives the error; otherwise the history label is resolved once and the log, requests, labels and counts are HistoryPass's for that label |
| GmailManagerAgent.GmailManager.RevertAllLabels | agents/gmail_manager_agent.py:339-420 | an empty log reverts nothing; missing credentials or a failed build give an error and change nothing; otherwise the requests, labels, counts and errors are RevertPass's over the log, and the log is empty afterwards |
| SetupLabels.RequiredKeysDistinct | setup_labels.py:13-48 | the six required labels have six distinct keys |
| SetupLabels.IndexedLastWins | setup_labels.py:55-68 | after loading, each lower-cased name maps to the last listed label with that name, and names not listed keep their earlier entry |
| SetupLabels.IsOurLabel | setup_labels.py:176-198 | a label is recognised as ours only for one of the six required keys, and never a system label for spam |
| SetupLabels.SimilarOnlyRequiredKeys | setup_labels.py:90-109 | the similarity rule accepts a name only for one of the six required keys, and never a system label for spam |
| SetupLabels.SystemLabelNeverSpam | setup_labels.py:180-182 | a system label is never taken as the custom spam label, by either matcher |
| SetupLabels.DoneAndFyiRules | setup_labels.py:189-192 | a name containing "undone" is never similar to done; the done and fyi labels are recognised only by exact name or their emoji |
| SetupLabels.RequiredNamesAreOurs | setup_labels.py:176-198 | every required label's own lower-cased name is recognised as ours by the update matcher |
| SetupLabels.FirstSimilar | setup_labels.py:90-109 | the first key whose label is similar, and none iff no key is similar |
| SetupLabels.FindOurs | setup_labels.py:82-109 | the exact name wins; otherwise a label is found iff some existing name is similar, and what is found is always an existing label |
| SetupLabels.StatusKeys | setup_labels.py:70-121 | every found and every missing key is a required key |
| SetupLabels.StatusMembership | setup_labels.py:111-119 | a required key is found iff the search finds a label (with that label's id, name and type) and missing iff it does not |
| SetupLabels.StatusCounts | setup_labels.py:72-77 | total_required is the given total, found plus missing is the number of required labels, and total_found counts the found keys |
| SetupLabels.StatusAccounts | setup_labels.py:70-121 | the status accounts for every required label exactly once |
| SetupLabels.AllFoundIffNothingMissing | setup_labels.py:246-248 | nothing is missing iff total_found equals total_required iff every required label is found |
| SetupLabels.FinalLabelsIff | setup_labels.py:215-223 | a key is in final_labels iff its action succeeded, with the required name, and nothing else is |
| SetupLabels.SetupFinalLabels | setup_labels.py:200-235 | for the six required labels, final_labels holds exactly the successful ones |
| SetupLabels.RequiredNamesDistinct | setup_labels.py:13-48 | the six required names are pairwise different |
| SetupLabels.CreateOrUpdateShape | setup_labels.py:123-174 | every outcome is "created", "updated" or "error", successful iff not "error"; an error changes no label, an update renames exactly the labels with the id of the first label recognised as ours, a creation appends one user label with the required name |
| SetupLabels.CreateOrUpdateCases | setup_labels.py:133-174 | the label found decides between update and creation and the server's answer decides success and the message |
| SetupLabels.SetupPass | setup_labels.py:213-233 | one action per required label, in order and under its key, each well kinded; the mailbox's labels never shrink |
| SetupLabels.CountKinds | setup_labels.py:216-226 | each well-kinded action is counted as exactly one of created, updated and error |
| SetupLabels.StaleIndexRenamesTwice | setup_labels.py:133-137 | with the index loaded once, a single label recognised as both the to-do and the history label is renamed twice: both actions say "updated", the label ends with the history name, and no label carries the to-do name |
| SetupLabels.TodoHistoryIsOurs | setup_labels.py:185-198 | a label named "todo history" is recognised as the to-do and the history label and as no other |
| SetupLabels.GmailLabelManager.Attempt | setup_labels.py:214-233 | the recorded action is the key, action, message and success of CreateOrUpdate, and the mailbox is its labels |
| SetupLabels.GmailLabelManager.constructor | setup_labels.py:50-53 | the index is built from the listed labels, or empty when listing fails |
| SetupLabels.GmailLabelManager.LoadExistingLabels | setup_labels.py:55-68 | the listed labels are added to the index by lower-cased name; a failed listing keeps the index |
| SetupLabels.GmailLabelManager.SimilarLabel | setup_labels.py:90-109 | the loop returns the first similar label in index order |
| SetupLabels.GmailLabelManager.CheckOurLabelsStatus | setup_labels.py:70-121 | the loop computes the status of the six required labels |
| SetupLabels.GmailLabelManager.CreateOrUpdateLabel | setup_labels.py:123-174 | the outcome and the mailbox's labels afterwards are exactly CreateOrUpdate of the index, the server and the labels before; no message is modified |
| SetupLabels.GmailLabelManager.SetupAllLabels | setup_labels.py:200-235 | the actions and the mailbox afterwards are the pass SetupPass over the six required labels with the index loaded before (never refreshed); created, updated and errors count the actions of each kind and add up to 6; final_labels as FinalOf states |
| SetupLabels.GmailLabelManager.VerifyFinalSetup | setup_labels.py:237-253 | after reloading, missing_labels, found_labels and found_count are those of the status of the reloaded index; all labels are found iff none is missing iff found_count equals required_count iff every required label is found |
| LabelMappingFix.EveryLabelMapped | label_mapping_fix.py:15-22 | every classification label is mapped, to one of the six required names |
| LabelMappingFix.ExistingOf | label_mapping_fix.py:29-34 | the name-to-id table holds exactly the listed label names |
| LabelMappingFix.NamesOfListed | label_mapping_fix.py:33 | a name is in the table iff some listed label has that name |
| LabelMappingFix.ExistingLastWins | label_mapping_fix.py:33 | the id stored under a name is that of the last listed label with the name |
| LabelMappingFix.Similar | label_mapping_fix.py:83-104 | a name can be similar only to a classification whose lowercase form is a mapped key |
| LabelMappingFix.SimilarNamesNonEmpty | label_mapping_fix.py:83-104 | a name that counts as similar is never empty, so a found similar label is always used |
| LabelMappingFix.FirstSimilar | label_mapping_fix.py:87-104 | the first similar name, and none iff no name is similar |
| LabelMappingFix.FindSimilar | label_mapping_fix.py:83-104 | a found name is an existing, similar name; none iff no existing name is similar |
| LabelMappingFix.Target | label_mapping_fix.py:43-62 | the mapped name when it exists, otherwise an existing similar name; none iff neither exists |
| LabelMappingFix.TargetIdOfTarget | label_mapping_fix.py:43-62 | the label id applied is the table's id of the target name, and there is one iff there is a target name |
| LabelMappingFix.AcceptedRequests | label_mapping_fix.py:224-238 | at most one request per e-mail, none without a target label, and every request adds only the target's id and removes nothing |
| LabelMappingFix.AcceptedAll | label_mapping_fix.py:224-238 | with a target label and a server that accepts every call, each e-mail of the thread gets exactly its request, in order |
| LabelMappingFix.Classified | label_mapping_fix.py:207-213 | the classification is the classifier's label and the applied name its mapping |
| LabelMappingFix.Decide | label_mapping_fix.py:187-219 | whenever a thread is decided, the label it gets is one of the six required names |
| LabelMappingFix.DecideByAge | label_mapping_fix.py:180-213 | a thread whose latest e-mail is more than seven days old gets the history label, any other thread the classifier's label |
| LabelMappingFix.DecideErrors | label_mapping_fix.py:188-202 | deciding fails iff the thread is empty, its dates cannot be compared, or the latest date cannot be converted |
| LabelMappingFix.Missing | label_mapping_fix.py:144-152 | the missing names are exactly the required names absent from the table, in order |
| LabelMappingFix.FixedLabelManager.constructor | label_mapping_fix.py:24-37 | the table is built from the listed labels, or empty when listing fails |
| LabelMappingFix.FixedLabelManager.FindSimilarLabel | label_mapping_fix.py:83-104 | the loop returns the first similar existing name |
| LabelMappingFix.FixedLabelManager.ApplyLabelFixed | label_mapping_fix.py:39-81 | with no target label nothing is sent and the answer is false; otherwise one request adds the target's id, the answer is true iff it was accepted, and no label is ever created |
| LabelMappingFix.FixedLabelManager.LabelThread | label_mapping_fix.py:224-238 | the requests sent and accepted are AcceptedRequests for the classification's target id over the thread's e-mails, in order; the count labelled is their number; no label is created |
| LabelMappingFix.ScriptRequests | label_mapping_fix.py:187-243 | no more accepted requests than e-mails over all threads |
| LabelMappingFix.ScriptStatsTotal | label_mapping_fix.py:220-238 | the label statistics add up to the number of accepted requests |
| LabelMappingFix.ThreadLabelIsDecided | label_mapping_fix.py:201-238 | once all required labels exist, every request of a decided thread adds the id of the name its label maps to, and with a server that accepts every call each of its e-mails gets one |
| LabelMappingFix.LabelOneThread | label_mapping_fix.py:187-243 | the requests accepted are the thread's requests and the labelled count grows by their number; every e-mail is counted once as labelled or as an error; a failed thread sends nothing and leaves the statistics alone; otherwise its count is added under the applied name |
| LabelMappingFix.LabelDecided | label_mapping_fix.py:220-239 | once the label is decided, the accepted requests are those for its target id over the thread's e-mails, the labelled count is their number, the rest are errors, and the count is added under its name |
| LabelMappingFix.LabelThreads | label_mapping_fix.py:183-243 | the accepted requests are ScriptRequests over the threads, the labelled count is their number, labelled + errors = number of e-mails in all threads, and the statistics are ScriptStats, which add up to the labelled count |
| LabelMappingFix.FixedEmailLabeling | label_mapping_fix.py:106-243 | stops iff a required label is missing (reporting exactly those), stops iff there are no e-mails, crashes iff the thread grouping fails, and sends nothing in those cases; otherwise the accepted requests, labelled count and statistics are those of the threads, and labelled + errors = number of fetched e-mails |

## Left out

- Gmail, OAuth and Pub/Sub traffic: fetching e-mails, building the Gmail
  service and reading credentials are not modelled. Fetched e-mails, the
  mailbox's labels and the success or failure of each call are inputs.
  `GmailService.Mailbox` answers every call with a fixed function of that
  call, so a retried call fails the same way.
- The language model and the prompt templates are opaque functions of
  their text inputs. Every prompt is rendered by a parameter.
- Date rendering (`strftime`, `isoformat`) is an opaque function of the
  timestamp. Date-header parsing is not modelled. A datetime is integer
  seconds plus an optional offset, and the clock is a parameter.
- Lower-casing is ASCII only. Python's Unicode case folding is not
  modelled, so the case-insensitive matches are exact only for ASCII
  names.
- Confidence is an exact `real`. Parsing a numeric token gives its
  exact decimal value, not the nearest double. Floating-point averages
  and `round` in the statistics functions are stated over reals without
  rounding, or left out.
- Logging and console output are not modelled. This includes the
  loguru time stamp of an applied-label record (it is not part of the
  model's record) and the interactive prompt for the number of e-mails
  in the labelling script.
- Label colours and visibility settings are sent to Gmail unchanged and
  are not modelled.
- The HMAC signature check of the webhook and the base64/JSON decoding
  of a Pub/Sub message body are not modelled. Decoding is a parameter.
- `extract_dates_and_times` in tools/text_processing.py is not part of
  this model; its word-boundary regexes are left out.
- `setup_push_notifications`, `get_inbox_status`, `list_all_labels`,
  `clear_applied_labels_tracking` and `get_applied_labels_count` in
  agents/gmail_manager_agent.py are not modelled. They are direct API
  calls or one-line accessors of the log.
- Code that no input can reach is left out:
  - the `'fallback'` classification method of the batch processor
    (enhanced_email_processor.py:219-229), because the thread classifier
    answers once per thread;
  - the `else` branch of the labelling script that maps an unknown label
    to FYI (label_mapping_fix.py:215-218);
  - the per-thread `except` of `classify_emails`
    (agents/email_classifier_agent.py:85-99), because `classify_thread`
    catches every error itself;
  - the `except` of `classify_single_email`
    (agents/email_classifier_agent.py:163-176), for the same reason, so
    `ClassifySingleEmail` always reports success;
  - the `except` of `check_email_age`
    (agents/history_checker_agent.py:63-69), because integer dates
    always subtract.
- The second search for the system SPAM label in `_get_or_create_label`
  (agents/gmail_manager_agent.py:189-194) is not a separate step.
  `GmailManagerAgent.SystemSpamAlreadyMatched` shows that it finds
  nothing the first search missed.
- The printed summary after the labelling loop of `fixed_email_labeling`
  is not modelled: it is console output.

## Notes on the source

- The spam label has two display names. The Gmail manager maps "spam"
  to "🗑️ Promotional" (agents/gmail_manager_agent.py:33). The set-up
  script and the labelling script use "🗑️ SPAM" (setup_labels.py:39,
  label_mapping_fix.py:20). Each module keeps its own constant.
- The two age rules disagree. The instant rule (utils/date_utils.py,
  the batch processor and the labelling script) is strict: an e-mail
  exactly N days old is not history. The day-count rule of the history
  checker is inclusive and drops the offset.
  `HistoryChecker.RulesDisagreeAtBoundary` states the difference.
- When a classifier's answer has no "Classification:" field, the parser
  keeps FYI. It does not fall back to a keyword scan: the scan runs only
  when parsing raises.
- The classifiers' history threshold defaults to 5 days
  (config/settings.py:28). The history checker, the batch processor and
  the labelling script use 7. The model takes the classifiers'
  threshold as a parameter.
- The set-up script indexes the account's labels once, before it
  creates or renames any. A single existing label named "todo history"
  is taken for both the to-do and the history label, so it is renamed
  twice: first to the to-do name and then to the history name, and the
  account ends up without a to-do label.
  `SetupLabels.StaleIndexRenamesTwice` and `SetupLabels.TodoHistoryIsOurs`
  state this.
