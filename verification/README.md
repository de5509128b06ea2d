# NeuroNest core, modelled in Dafny

NeuroNest is a browser-side mental-wellness app. This project models the data
handling of its pages, with no rendering, as immutable datatypes and pure
functions over sequences:

- **Mood tracker.**
  - The mood-to-score table.
  - Logging a mood into a list that keeps the newest thirty entries.
  - The ten-bar chart series.
  - The up/down/stable trend that compares the newest five scores with an earlier window.
- **Insights.** The seven-day chart of average mood per calendar day. This page has its own copy of the score table, and labels it does not know score 0.
- **Journal.**
  - Saving an entry only when the draft is not blank and both analyses succeed.
  - The case-insensitive search over text, emotion and trigger words.
  - The sentiment badge.
- **Meditations.**
  - The catalogue and its category list.
  - `filterAndSort`: a category filter, a search filter, then a stable "recommended first" sort.
  - The base and the simulated recommendation lists.
- **Mindfulness.**
  - The countdown timer as a state machine, with the invariant every event preserves.
  - The `m:ss` clock face and a reader that inverts it.
- **Chat.**
  - The flow's input schema (the sender enum and the default tone).
  - The flow's ten-message history window.
  - On the page: the send guard, the appended messages and the five-message window sent with a request.
  - On the page: the AI reply or fixed fallback, the tone taken from the saved settings, and the label of the suggested-route button.
- **Sidebar.** The route table and the three highlight rules.
- **Settings.** The preferences record, its defaults, the single-field update, and saving and loading it under one key.

Shared helpers:

- `Seqs`: filter, suffix, de-duplication, sums and means.
- `Text`: the JavaScript string operations the pages use. These are `trim`, `toLowerCase`, `includes`, `startsWith`, `split` and decimal rendering.
- `Wrappers`: `Option` and `Result`.

Clock readings, the calendar day of a timestamp, and the answers of the language-model calls are parameters. Storage contents are modelled as values.

One behaviour is followed as the code has it. When there are at most five mood logs, the trend compares the newest window with the single oldest log. That log is itself part of the newest window (`MoodTracker.TrendWindows`). It is not compared with "whatever earlier logs exist".

## Model

| member | source | states |
|---|---|---|
| MoodTracker.ScoreRange | src/app/mood-tracker/page.tsx:41-49 | every mood scores in 1..5; only angry scores 1 and only ecstatic scores 5 |
| MoodTracker.FindColor | src/app/mood-tracker/page.tsx:90 | the lookup finds a colour exactly when some option has the mood, and the colour it returns is that of the first such option |
| MoodTracker.FillFromTable | src/app/mood-tracker/page.tsx:31-39 | every mood has a picker entry, so a bar's colour always comes from the table and the fallback colour is never used |
| MoodTracker.Fill | src/app/mood-tracker/page.tsx:90 | a bar takes the colour of the picker entry for its mood |
| MoodTracker.LogMood | src/app/mood-tracker/page.tsx:68-81 | without a selection nothing changes and "no mood selected" is reported; otherwise the new log is first, followed by the old logs cut so that at most 30 remain, and the selection is cleared |
| MoodTracker.LogMoodKeepsNewestThirty | src/app/mood-tracker/page.tsx:78 | logging keeps the list at most 30 long and newest first; a full list loses exactly its oldest entry |
| MoodTracker.InsertByDate | src/app/mood-tracker/page.tsx:85 | inserting into an oldest-first list keeps it oldest first and adds exactly that log (multiset) |
| MoodTracker.SortByDate | src/app/mood-tracker/page.tsx:84-85 | the ascending-date sort is a permutation of the logs, ordered by date |
| MoodTracker.ChartLogs | src/app/mood-tracker/page.tsx:83-86 | the charted logs are min(10, n) stored logs, oldest first; ChartShowsNewest shows they are the newest ones |
| MoodTracker.ChartData | src/app/mood-tracker/page.tsx:83-91 | min(10, n) bars in ascending date order, each with a score in 1..5 |
| MoodTracker.ChartShowsNewest | src/app/mood-tracker/page.tsx:83-86 | the charted logs are drawn from the stored ones, and every stored log left out is no newer than any charted log |
| MoodTracker.Classify | src/app/mood-tracker/page.tsx:118-121 | up exactly when the change exceeds 0.5, down exactly when it is below -0.5, stable otherwise |
| MoodTracker.MoodTrend | src/app/mood-tracker/page.tsx:101-122 | the reported trend is always the classification of the reported change, and fewer than two logs report no change; the lemmas below give the windows, the bound and the constant case |
| MoodTracker.TrendWindows | src/app/mood-tracker/page.tsx:101-116 | with two or more logs the later guards never fire: the newest window holds 2..5 scores and the earlier one 1..5; with at most five logs the earlier window is the oldest log alone |
| MoodTracker.TrendOfShortHistory | src/app/mood-tracker/page.tsx:102 | fewer than two logs give stable with change 0 |
| MoodTracker.TrendChangeBounded | src/app/mood-tracker/page.tsx:101-122 | the reported change always lies in [-4, 4] |
| MoodTracker.ConstantMoodIsStable | src/app/mood-tracker/page.tsx:101-122 | a history of one repeated mood is stable with change 0 |
| MoodTracker.TrendRisingExample | src/app/mood-tracker/page.tsx:103-121 | five ecstatic logs in front of five sad ones give "up" with change 3 |
| Insights.TablesAgree | src/app/insights/page.tsx:28-30 | the insights score table gives every tracker mood the tracker's own score |
| Insights.LabelScoreRange | src/app/insights/page.tsx:50 | a label scores within 0..5, and within 1..5 when it is in the table |
| Insights.DayLogs | src/app/insights/page.tsx:48 | a day's logs are stored logs that fall on that day, no more of them than stored; DayLogsExact adds that none is missed and order is kept |
| Insights.DayLogsExact | src/app/insights/page.tsx:48 | a log belongs to a day's logs exactly when it falls on that day, every copy of such a log is kept (equal counts) and none of any other, and the day's logs keep their stored order |
| Insights.DayAverage | src/app/insights/page.tsx:49-51 | a day has no average exactly when no log falls on it |
| Insights.WeeklyChart | src/app/insights/page.tsx:46-56 | seven points for the six days before today and today, in order; a point is empty exactly when no log falls on its day |
| Insights.WeeklyChartMeans | src/app/insights/page.tsx:49-50 | a non-empty point is the mean score of that day's logs |
| Insights.WeeklyChartRange | src/app/insights/page.tsx:49-51 | averages lie in [0, 5], and in [1, 5] when every stored label is in the table |
| Insights.LoadChart | src/app/insights/page.tsx:40-59 | nothing stored leaves the chart empty; a stored list gives the seven-day chart |
| Insights.TrackerLogsAverageInRange | src/app/insights/page.tsx:44-51 | logs written by the mood tracker always average within [1, 5] |
| Journal.SaveEntry | src/app/journal/page.tsx:46-75 | a blank draft changes nothing (empty-entry notice); a failed analysis changes nothing (error notice); otherwise the draft is cleared and exactly one entry holding the draft and both analyses is put in front of the old ones |
| Journal.WhitespaceDraftNotSaved | src/app/journal/page.tsx:47-50 | a draft made only of white space is never saved |
| Journal.Matches | src/app/journal/page.tsx:78-80 | an empty search term matches every entry; FilteredEntriesExact restates the test as occurrence of the lowered term |
| Journal.FilteredEntries | src/app/journal/page.tsx:77-81 | every shown entry is a stored entry that matches the term; FilteredEntriesExact adds that none is missed and order is kept |
| Journal.FilteredEntriesExact | src/app/journal/page.tsx:77-81 | an entry is shown exactly when the lowered term occurs in its lowered text, in its non-empty emotion or in one of its trigger words; every copy of a shown entry is kept and shown entries keep their order |
| Journal.EmptySearchShowsAll | src/app/journal/page.tsx:77-81 | an empty search shows every entry, in order |
| Journal.BadgeFor | src/app/journal/page.tsx:83-87 | default exactly above 0.3, destructive exactly below -0.3, secondary on [-0.3, 0.3]; never outline |
| Meditations.CategoryNameInjective | src/app/wellness/meditations/page.tsx:20 | different categories have different names |
| Meditations.CategoriesInOrder | src/app/wellness/meditations/page.tsx:44 | the category list is "All" followed by each catalogue category once, in order of first appearance |
| Meditations.Categories | src/app/wellness/meditations/page.tsx:44 | "All" comes first, followed by distinct names each carried by some catalogue entry; CategoriesInOrder gives the exact list |
| Meditations.FilteredAsOne | src/app/wellness/meditations/page.tsx:59-69 | the category filter then the term filter equals one filter on both conditions |
| Meditations.Filtered | src/app/wellness/meditations/page.tsx:60-69 | every surviving session comes from the input and there are no more of them; FilteredExact states exactly which survive |
| Meditations.FilteredExact | src/app/wellness/meditations/page.tsx:59-69 | a session survives exactly when it is in the chosen category ("All" means any) and, for a non-empty term, its lowered title or description contains the lowered term; every copy of a survivor is kept and survivors keep their order |
| Meditations.RecommendedFirst | src/app/wellness/meditations/page.tsx:71 | no recommended session comes after one that is not; the result is a permutation of the input |
| Meditations.RecommendedFirstStable | src/app/wellness/meditations/page.tsx:71 | the sort is stable: each group keeps its filtered order |
| Meditations.FilterAndSort | src/app/wellness/meditations/page.tsx:59-72 | recommended sessions first, and the result is a permutation of the filtered sessions |
| Meditations.FilterAndSortIdempotent | src/app/wellness/meditations/page.tsx:59-72 | filtering and sorting a second time with the same term and category changes nothing |
| Meditations.BaseCatalogue | src/app/wellness/meditations/page.tsx:75 | one item per catalogue entry; BaseCatalogueUnsorted states each is the entry flagged not recommended |
| Meditations.BaseCatalogueUnsorted | src/app/wellness/meditations/page.tsx:75-76 | every base item is explicitly not recommended, so the sort keeps the filtered order |
| Meditations.RecommendedIds | src/app/wellness/meditations/page.tsx:51 | the catalogue ids are distinct, so exactly the first and third entries carry a recommended id |
| Meditations.SimulatedRecommendations | src/app/wellness/meditations/page.tsx:51-52 | one item per catalogue entry, flagged by id; RecommendedIds and SimulatedRecommendationsOrder state which are flagged and the order shown |
| Meditations.SimulatedRecommendationsOrder | src/app/wellness/meditations/page.tsx:50-53 | unfiltered, the simulated list shows stress-1 and focus-1 first, then the other four in catalogue order |
| Mindfulness.Start | src/app/wellness/mindfulness/page.tsx:90-95 | starting opens the exercise with a full clock and an empty bar, and runs the clock |
| Mindfulness.Tick | src/app/wellness/mindfulness/page.tsx:74-88 | a running clock with time left loses one second and keeps running, and the bar moves to the new elapsed fraction when an exercise is open and stays put when none is; a running clock at zero stops and nothing else changes; a paused clock is left alone |
| Mindfulness.TogglePlayPause | src/app/wellness/mindfulness/page.tsx:97-99 | flips whether the clock runs and nothing else |
| Mindfulness.Reset | src/app/wellness/mindfulness/page.tsx:101-107 | with an exercise open the clock is refilled to its length, the bar emptied and the clock paused; with none open nothing changes |
| Mindfulness.Close | src/app/wellness/mindfulness/page.tsx:157 | closing forgets the exercise but leaves the clock, the bar and running as they are |
| Mindfulness.ProgressRange | src/app/wellness/mindfulness/page.tsx:80 | with 0..d seconds left of d the bar value lies within 0..100 |
| Mindfulness.ApplyPreservesValid | src/app/wellness/mindfulness/page.tsx:74-107 | every event keeps the clock non-negative and the bar within 0..100; while an exercise is open the clock stays within its length and the bar equals the elapsed fraction |
| Mindfulness.RunPreservesValid | src/app/wellness/mindfulness/page.tsx:74-107 | any sequence of events from a valid state ends in a valid state |
| Mindfulness.TickMonotone | src/app/wellness/mindfulness/page.tsx:76-82 | a tick never adds time, and while an exercise is open the bar never moves back |
| Mindfulness.CountDown | src/app/wellness/mindfulness/page.tsx:76-82 | a running clock with an exercise open loses exactly n seconds in n ticks and stays running and valid |
| Mindfulness.RunToCompletion | src/app/wellness/mindfulness/page.tsx:74-95 | a started exercise left alone reads 0:00, has stopped and shows a full bar after its length in ticks plus one |
| Mindfulness.StoppedIsFixed | src/app/wellness/mindfulness/page.tsx:76-86 | ticks never change a stopped clock |
| Mindfulness.TwoDigits | src/app/wellness/mindfulness/page.tsx:111-112 | seconds are shown as exactly two digits, tens then units |
| Mindfulness.FormatTime | src/app/wellness/mindfulness/page.tsx:109-113 | the face is digits with a colon third from the end, and its minutes are never zero-padded (a leading 0 means zero minutes); FormatTimeCanonical and FormatTimeRoundTrip pin it exactly |
| Mindfulness.FormatTimeRoundTrip | src/app/wellness/mindfulness/page.tsx:109-113 | reading the clock face back gives the number of seconds |
| Mindfulness.FormatTimeInjective | src/app/wellness/mindfulness/page.tsx:109-113 | different numbers of seconds show different faces |
| Mindfulness.FormatTimeCanonical | src/app/wellness/mindfulness/page.tsx:109-113 | any m:ss text that reads back as n and whose minutes are not zero-padded is exactly the face of n, so the minutes are the plain decimal rendering and the seconds the two-digit one |
| Mindfulness.TenMinuteFace | src/app/wellness/mindfulness/page.tsx:110-112 | 600 seconds reads 10:00, with no padding of the minutes |
| Mindfulness.CatalogueFaces | src/app/wellness/mindfulness/page.tsx:168 | the three exercise cards read 2:00, 5:00 and 3:00, and 65 seconds reads 1:05 |
| ChatFlow.ParseSender | src/ai/flows/generate-chat-response.ts:15 | only "user" and "ai" are accepted, each as its own sender |
| ChatFlow.ParseHistory | src/ai/flows/generate-chat-response.ts:21-23 | a history validates exactly when every sender is valid, keeping length, senders and texts |
| ChatFlow.ParseInput | src/ai/flows/generate-chat-response.ts:19-39 | input validates exactly when the history (if any) validates; the message and language are kept, a given history comes out as its validated messages, and a missing tone becomes "friendly" |
| ChatFlow.ParseInputRoundTrip | src/ai/flows/generate-chat-response.ts:14-39 | every well-formed input passes validation unchanged |
| ChatFlow.RecentHistory | src/ai/flows/generate-chat-response.ts:115-119 | the forwarded history is the last min(10, n) messages in their original order; a missing history becomes empty |
| ChatFlow.PromptInput | src/ai/flows/generate-chat-response.ts:114-121 | the prompt gets the message, tone and language unchanged and the newest min(10, n) messages of the history in their original order; a missing history is sent as an empty one |
| ChatFlow.ShortHistoryKept | src/ai/flows/generate-chat-response.ts:116-118 | a history of at most ten messages reaches the prompt unchanged |
| ChatFlow.PromptInputIdempotent | src/ai/flows/generate-chat-response.ts:115-121 | cutting the history twice is cutting it once |
| ChatFlow.TwelveMessages | src/ai/flows/generate-chat-response.ts:116-118 | twelve messages lose exactly the two oldest |
| ChatPage.Mount | src/app/chat/page.tsx:48-62 | a non-empty saved tone replaces the tone and any other keeps it; the transcript becomes the greeting alone |
| ChatPage.HistoryForFlow | src/app/chat/page.tsx:79-82 | the window holds the last min(5, n) messages, reduced to sender and text, in order |
| ChatPage.Send | src/app/chat/page.tsx:64-89 | blank input changes nothing and asks nothing; otherwise exactly one user message goes at the end, the box is cleared, and the flow is asked with the text, the tone and the window of messages from before this send |
| ChatPage.Receive | src/app/chat/page.tsx:96-117 | exactly one AI message goes at the end, holding the model's text and route or the fixed fallback text; earlier messages are kept and loading stops |
| ChatPage.ExchangeAddsTwo | src/app/chat/page.tsx:64-118 | a whole exchange adds exactly two messages, the user's then the AI's, keeping all earlier ones |
| ChatPage.PageWindowReachesPrompt | src/app/chat/page.tsx:79-91 | the flow never cuts the page's five-message window further |
| ChatPage.RequestIsValid | src/app/chat/page.tsx:84-89 | the request the page builds passes the flow's schema unchanged |
| ChatPage.SavedToneReachesChat | src/app/chat/page.tsx:49-55 | the tone saved on the settings page becomes the chat's tone |
| ChatPage.DefaultChatTone | src/app/chat/page.tsx:30 | with nothing saved the chat's tone is "friendly" |
| ChatPage.NavLabelWellness | src/app/chat/page.tsx:163 | under /wellness/ the label is the path segment after it, up to the next slash |
| ChatPage.NavLabelWellnessPage | src/app/chat/page.tsx:163 | a page directly under /wellness/ is labelled with its own name |
| ChatPage.NavLabelOther | src/app/chat/page.tsx:163 | any other path loses its first character, and a path of at most one character reads "page" |
| ChatPage.NavLabelExamples | src/app/chat/page.tsx:163 | "/journal" reads journal, "/" reads page, "/wellness" reads wellness, and "/wellness/meditations" reads meditations |
| ChatPage.NavLabel | src/app/chat/page.tsx:163 | a label under /wellness/ never contains a slash; NavLabelWellness and NavLabelOther give the label for every path |
| ChatPage.ShowsNavButton | src/app/chat/page.tsx:156 | the button test on one message; ReplyShowsNavButton states when a reply passes it |
| ChatPage.ReplyShowsNavButton | src/app/chat/page.tsx:156 | a reply shows the button exactly when the model gave a non-empty route; the fallback and the user's messages never do |
| SidebarNav.ExactHrefsCover | src/components/layout/sidebar-nav.tsx:35-49 | every plain link and every sub-link of the table is matched by exact path |
| SidebarNav.ExactHrefsOfTable | src/components/layout/sidebar-nav.tsx:35-49 | the exact-match routes are /, /journal, /mood-tracker, the three wellness pages, /insights, /chat and /settings |
| SidebarNav.ExactHrefsDistinct | src/components/layout/sidebar-nav.tsx:35-49 | no two exact-match routes are equal |
| SidebarNav.AtMostOneExact | src/components/layout/sidebar-nav.tsx:82-101 | for any pathname at most one plain link or sub-link is highlighted |
| SidebarNav.DashboardOnlyOnRoot | src/components/layout/sidebar-nav.tsx:101 | the dashboard is highlighted exactly on "/" |
| SidebarNav.RootGroupNeverActive | src/components/layout/sidebar-nav.tsx:73 | a group whose href is "/" is never highlighted |
| SidebarNav.SubActiveImpliesGroupActive | src/components/layout/sidebar-nav.tsx:73-86 | whenever a wellness sub-link is highlighted, so is the wellness group |
| SidebarNav.GroupPrefixMatch | src/components/layout/sidebar-nav.tsx:73 | the group rule is a plain prefix test, so "/wellness-extra" also highlights the wellness group |
| Settings.DefaultValues | src/app/settings/page.tsx:21-26 | the defaults are a friendly tone, notifications on, cloud backup off and the system theme |
| Settings.Change | src/app/settings/page.tsx:40-42 | the chosen field takes the new value and the other three keep theirs |
| Settings.ChangeSameKey | src/app/settings/page.tsx:40-42 | of two changes to one field the later wins |
| Settings.ChangesCommute | src/app/settings/page.tsx:40-42 | changes to different fields can be applied in either order |
| Settings.ChangeToCurrent | src/app/settings/page.tsx:40-42 | setting a field to its current value changes nothing |
| Settings.ReachableFromDefaults | src/app/settings/page.tsx:14-26 | every record is the defaults with its four fields set |
| Settings.Save | src/app/settings/page.tsx:44-46 | the record is stored whole under its key and no other key changes |
| Settings.Load | src/app/settings/page.tsx:33-38 | a stored record replaces the page's record wholesale; without one the page keeps its record |
| Settings.Mount | src/app/settings/page.tsx:29-38 | after mounting the page shows the stored record if there is one and the defaults otherwise |
| Settings.SaveLoad | src/app/settings/page.tsx:33-46 | what is saved is what is loaded next |
| Settings.LoadSave | src/app/settings/page.tsx:33-46 | saving what was loaded leaves storage as it was |
| Settings.FreshMountShowsDefaults | src/app/settings/page.tsx:29-38 | with nothing stored the page shows the defaults |
| Settings.ToneNamesDistinct | src/app/settings/page.tsx:15 | the four tone names are distinct and none is empty |
| Settings.StoredTone | src/app/chat/page.tsx:49-53 | another page finds a saved tone exactly when a settings record is stored |
| Text.BlankIff | src/app/journal/page.tsx:47 | a string trims to nothing exactly when all its characters are white space |
| Text.ContainsIff | src/app/journal/page.tsx:78 | the substring search succeeds exactly when the needle occurs somewhere in the text |

## Left out

- The language-model calls: sentiment analysis, trigger detection, the chat prompt and its template, and the non-null assertion on its output. Their answers (or failures) are parameters.
- Reading and writing browser storage as JSON. Stored values appear as values or `Option`s. Unparsable or partially filled stored records are not modelled.
- Notifications: the mood tracker and journal return a notice value. The chat's error notification is not modelled; its fallback message is.
- Clocks and dates. Clock readings are parameters. The `MMM d` labels are not modelled. The insights page's local-time calendar day is a number carried by each log, or is given by a `dayOf` function for tracker logs.
- The random typing delay, the one-second recommendation timeout, the half-second save delay, and the loading and saving flags of the journal, meditations and settings pages. The timers' interleaving with user input (a search typed before the simulated recommendations arrive) is not modelled either.
- Floating point: averages, progress and sentiment scores are exact reals.
- `toLowerCase` folds only ASCII letters; other case mappings are not modelled.
- Score lookups on the insights page for labels that name built-in object properties are not modelled; every label outside the table scores 0.
- Mood log notes, exercise descriptions, steps, images and audio links, meditation playback, and the sidebar's icons, tooltips and footer buttons. None of them affects the modelled behaviour.
- The chat's detected-language field, which the page never sets. Requests carry none.
- Message ids that collide when two messages share a clock reading are not distinguished.
- Mindfulness.Tick: exercise lengths are positive, by the `Duration` type, because the model's `Progress` and `Valid` divide by the length. A zero-length exercise is not modelled. On the page it would start at zero and stop on its first tick, without the bar ever being computed.
- MoodTracker.ChartData: states the order by date, the count and the score range. It does not state the relative order of logs with equal timestamps.
- Settings.Change: only well-typed values are modelled. The page's untyped `value` parameter would accept anything.
