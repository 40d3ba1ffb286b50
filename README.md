# New Class Royal Ministries site, modelled in Dafny

This project models the church web site's Django REST backend and its React
front end. The backend apps are events, livestream, newsletter, prayer,
donations, sermons, core and members. The front end covers the pages, the
navigation bar and the API client's auth interceptor. The project proves
properties of the model.

Modelling conventions:

- Datetimes are integer timestamps, and the current time is a parameter `now`.
- Database tables are sequences of rows. `NULL` is `Option.None`.
- Money is held in integer cents; campaign progress is a `real`.
- A queryset filter is an order-preserving `Filter` over the table.
- A table sequence stands for the rows in the order of its model's
  `Meta.ordering`. A slice `[:n]` keeps the first `n` matches in that order.
  Contracts that depend on the ordering take it as a hypothesis, written
  `SortedBy(rows, …)`.
- Each request handler is a pure function from the tables before the request
  to an HTTP status and the tables after it.
- Where the source mutates records (counters, subscriber lifecycle, webhook
  status, component state), the function is paired with a class. The class
  keeps the table or the component state in fields, and its methods are
  proved equal to the pure function.
- The React pages are classes whose fields are the component state. Their
  pure helpers (filters, formatters, form rules, fallbacks) are functions.

Files and modules:

| file | modules |
|---|---|
| `seqs.dfy` | `Seqs` (Option/Result, filter, count, take, find, subsequence and sortedness lemmas) |
| `text.dfy` | `Text` (ASCII whitespace, strip, lower-casing, substring search, decimal numerals, `parseInt`, split) |
| `auth.dfy` | `Users` (Django's user record and `get_full_name`) |
| `events.dfy` | `EventModels`, `EventSerializers`, `EventViews` |
| `livestream.dfy` | `LivestreamModels`, `LivestreamViews` |
| `newsletter.dfy` | `NewsletterModels`, `NewsletterSerializers`, `NewsletterViews` |
| `prayer.dfy` | `PrayerModels`, `PrayerSerializers`, `PrayerViews` |
| `donations.dfy` | `DonationModels`, `DonationSerializers`, `DonationViews` |
| `sermons.dfy` | `SermonModels`, `SermonFilters`, `SermonViews` |
| `core.dfy` | `CoreModels`, `CoreViews` |
| `members.dfy` | `MemberModels` |
| `api.dfy` | `ApiClient` (the axios interceptors of `src/services/api.js`) |
| `frontend_common.dfy` | `FormRules` (form validators, `||` fallbacks), `PageText` (HTML tag stripping) |
| `frontend_sermons.dfy` | `SermonsPage`, `SermonDetailPage` |
| `frontend_events.dfy` | `EventsPage`, `EventDetailPage` |
| `frontend_prayer.dfy` | `PrayerPage` |
| `frontend_livestream.dfy` | `LiveStreamPage` |
| `frontend_donations.dfy` | `DonationsPage`, `ContactPage` |
| `frontend_nav.dfy` | `NavbarState` |
| `frontend_home.dfy` | `HomePage`, `AboutPage` |

## Model

| member | source | states |
|---|---|---|
| EventModels.PhaseAt | apps/events/models.py:83-94 | for an event whose start is not after its end, exactly one of upcoming (start > now), ongoing (start ≤ now ≤ end) and past (end < now) holds |
| EventModels.RegistrationCount | apps/events/models.py:96-98 | the count is the number of confirmed registrations of the event, at most the table size, and 0 exactly when none is confirmed |
| EventModels.RegistrationCountAppend | apps/events/models.py:96-98 | a new registration adds 1 exactly when it is confirmed and for this event, whatever its number of attendees |
| EventModels.IsRegistrationOpen | apps/events/models.py:100-112 | open implies registration required and upcoming; a passed deadline closes it; a positive cap reached closes it; otherwise (no cap or cap 0, deadline not passed, upcoming) it is open |
| EventModels.NoCapIgnoresCount | apps/events/models.py:109-110 | with a null or zero `max_attendees` the answer does not depend on the registrations |
| EventModels.RegistrationFullName | apps/events/models.py:159-163 | a linked user gives the full name or username; a guest gives "first last" stripped, empty when both parts are empty |
| EventSerializers.ValidateEmail | apps/events/serializers.py:89-93 | refused exactly when a registration of the same event has that e-mail; accepted values are returned unchanged |
| EventSerializers.NewRegistration | apps/events/serializers.py:82-87 | the saved row takes event and user from the server, confirmed and payment pending, and 1 attendee unless given |
| EventSerializers.UpdateRegistration | apps/events/serializers.py:62-75 | `is_confirmed`, `payment_status` and the user keep their values; event, first and last name, e-mail, phone and special requirements take the payload's; the attendee count takes the payload's when given, else keeps its value |
| EventSerializers.UpdateIdempotent | apps/events/serializers.py:62-75 | writing the same payload twice gives the same row as writing it once |
| EventSerializers.UpdateKeepsCounts | apps/events/serializers.py:74 | an update that keeps a registration on its event leaves every event's registration count unchanged, because confirmation is read-only |
| EventViews.EventList | apps/events/views.py:31-43 | for a request without filter, `search` or `ordering` parameters: an order-preserving subsequence holding exactly the published events with start ≥ `start_date` and end ≤ `end_date` |
| EventViews.UpcomingEvents | apps/events/views.py:62-66 | published events starting strictly after now, min(10, how many there are) of them, the leading matches in table order; on a table in its `start_datetime` order (apps/events/models.py:78) no upcoming event left out starts before a listed one |
| EventViews.FeaturedEvents | apps/events/views.py:76-81 | published featured events starting after now, min(5, how many there are) of them, the leading matches in table order; on a table in its `start_datetime` order they are the five that start soonest |
| EventViews.FeaturedAmongUpcoming | apps/events/views.py:62-81 | there are never more featured upcoming events than upcoming events |
| EventViews.RegisterAsWritten | apps/events/views.py:100-118 | as written: 400 exactly on a duplicate e-mail, 201 in every other case, including the cases where nothing is saved |
| EventViews.Register | apps/events/views.py:100-118 | status 201, 400 or 404; 404 exactly for a missing or unpublished event; 201 only when an open published event exists and one row is appended, and, with unique event ids, 201 whenever the e-mail is new and the event is open; 400 exactly on a duplicate e-mail or a closed event; no change unless 201 |
| EventViews.RegisterThenDuplicate | apps/events/serializers.py:89-93 | a saved registration raises the count by one, and the same request again is refused with 400 |
| EventViews.AsWrittenHidesRejections | apps/events/views.py:102-114 | whenever the intended endpoint rejects a valid payload, the code as written answers 201 and saves nothing |
| EventViews.MissingEventAnswered201 | apps/events/views.py:102-108 | concrete input: registering for a non-existent event gives 201 as written and 404 as intended |
| EventViews.RegistrationTable.Create | apps/events/views.py:93-118 | the status and the new table are those of `Register` on the old table |
| EventViews.ToCalendarEntry | apps/events/views.py:139-152 | the entry copies the event's fields; colour and category fall back to `#3B82F6` and `''` for an uncategorised event |
| EventViews.CalendarUrlNamesEvent | apps/events/views.py:147 | the entry's url starts with `/events/`, and the rest parses back to the event's id |
| EventViews.EventCalendar | apps/events/views.py:123-154 | one entry per listed event, in queryset order, each equal to that event's entry |
| EventViews.CalendarEntries | apps/events/views.py:137-152 | the loop builds one entry per queryset row, in queryset order, each equal to that event's entry |
| LivestreamModels.NeverLiveAndUpcoming | apps/livestream/models.py:63-69 | a stream is never both live and upcoming |
| LivestreamModels.IsLive | apps/livestream/models.py:63-65 | a live stream is never in the scheduled state |
| LivestreamModels.IsUpcoming | apps/livestream/models.py:67-69 | an upcoming stream starts after now and is not live |
| LivestreamModels.PrimaryStreamUrl | apps/livestream/models.py:71-80 | the first non-empty link in the order youtube, facebook, zoom, other; always one of the four fields, empty only when all four are |
| LivestreamModels.Joined | apps/livestream/views.py:110-113 | viewer count rises by exactly 1; the high-water mark never drops and is at least the count; nothing else changes |
| LivestreamModels.Left | apps/livestream/views.py:133-136 | decrements only a positive count; `max_viewers` is unchanged; count ≤ max is preserved |
| LivestreamModels.JoinThenLeave | apps/livestream/views.py:111-136 | a join then a leave restores the viewer count and never lowers the high-water mark |
| LivestreamViews.CurrentStreams | apps/livestream/views.py:44-48 | an order-preserving subsequence holding exactly the public live streams |
| LivestreamViews.UpcomingStreams | apps/livestream/views.py:58-63 | as written: min(5, how many there are) public scheduled streams starting after now, the leading matches in table order; on a table in its `-scheduled_start` order (apps/livestream/models.py:58) every upcoming stream left out starts no later than each listed one |
| LivestreamViews.UpcomingStreamsSkipsNext | apps/livestream/views.py:58-63 | concrete input: with six streams ahead in table order, the one starting next is not listed |
| LivestreamViews.NextStreams | apps/livestream/views.py:58-63 | corrected: min(5, how many there are) upcoming public streams, soonest first, and no upcoming stream left out starts before a listed one |
| LivestreamViews.PublicIndex | apps/livestream/views.py:101 | finds a row with the id that is public, and none exactly when no such row exists |
| LivestreamViews.StreamTables.JoinStream | apps/livestream/views.py:96-121 | 404 with nothing changed exactly for a missing or non-public stream; otherwise 200, one viewer record and the row replaced by `Joined` |
| LivestreamViews.StreamTables.LeaveStream | apps/livestream/views.py:126-143 | 404 with nothing changed for a missing or non-public stream; otherwise 200 and the row replaced by `Left` |
| LivestreamViews.JoinKeepsCountersValid | apps/livestream/views.py:111-114 | a join keeps every stream's count at or below its high-water mark |
| LivestreamViews.LeaveKeepsCountersValid | apps/livestream/views.py:134-136 | a leave keeps every stream's count at or below its high-water mark |
| NewsletterModels.FullName | apps/newsletter/models.py:50-54 | `name` when non-empty, else "first last" stripped, empty when both parts are empty |
| NewsletterModels.Display | apps/newsletter/models.py:46-48 | "display (email)" when the display name is non-empty, else just the e-mail |
| NewsletterModels.NewSubscriber | apps/newsletter/models.py:15-41 | a new row is active, unconfirmed, never confirmed, weekly unless given, with the two fresh tokens |
| NewsletterSerializers.ValidateSubscribeEmail | apps/newsletter/serializers.py:31-35 | refused exactly while an active row has that e-mail; accepted values are unchanged |
| NewsletterSerializers.ApplyPayload | apps/newsletter/serializers.py:42-43 | every submitted field overwrites the row's, and no other field changes |
| NewsletterSerializers.CreateSubscriber | apps/newsletter/serializers.py:37-50 | an existing row for the e-mail is updated in place and made active and unconfirmed; otherwise a new row is appended |
| NewsletterSerializers.ValidateUnsubscribeEmail | apps/newsletter/serializers.py:59-65 | accepted exactly when an active row has the e-mail, and returns that row's index |
| NewsletterViews.Subscribe | apps/newsletter/serializers.py:31-50 | 400 with no change exactly while the address is active; otherwise 201 and the table `CreateSubscriber` gives |
| NewsletterViews.SubscribeEndsActiveUnconfirmed | apps/newsletter/serializers.py:44-45 | after a successful subscribe the address has exactly one row, which is active and unconfirmed |
| NewsletterViews.SubscribeKeepsOneRowPerEmail | apps/newsletter/serializers.py:40-47 | subscribing an address already in the table never adds a row |
| NewsletterViews.SubscribeAsWritten | apps/newsletter/serializers.py:27-35 | as written: 400 exactly when any row (active or not) has the e-mail; otherwise a new active row |
| NewsletterViews.ReactivationUnreachableAsWritten | apps/newsletter/serializers.py:38-47 | for an inactive address the code as written answers 400, while the intended path reactivates it with 201 |
| NewsletterViews.Confirm | apps/newsletter/views.py:84-148 | 400 with no change exactly when no active row has the token; otherwise 200, and that row is confirmed with `confirmed_at` set once |
| NewsletterViews.ConfirmIdempotent | apps/newsletter/views.py:94-101 | a second confirm changes nothing, `confirmed_at` included |
| NewsletterViews.UnsubscribeByToken | apps/newsletter/views.py:153-210 | 400 with no change exactly when no active row has the token; otherwise 200, that row inactive and `is_confirmed` untouched |
| NewsletterViews.UnsubscribeByTokenTwice | apps/newsletter/views.py:157-161 | the second use of the same link fails with 400 and changes nothing |
| NewsletterViews.Unsubscribe | apps/newsletter/serializers.py:59-71 | 400 with no change for an unknown or inactive address; otherwise 200 and that row becomes inactive |
| NewsletterViews.UnsubscribeAsWritten | apps/newsletter/serializers.py:67-70 | as written: validation as intended, then a server error before anything is saved |
| NewsletterViews.UnsubscribeAsWrittenKeepsActive | apps/newsletter/serializers.py:68-69 | an active subscriber who unsubscribes by e-mail stays active as written, but not as intended |
| NewsletterViews.Stats | apps/newsletter/views.py:219-233 | confirmed ≤ total, weekly + monthly ≤ total, total ≤ number of rows |
| NewsletterViews.NewsletterTable.HandleSubscribe | apps/newsletter/views.py:28-61 | the status and table are those of `Subscribe`; a failed confirmation mail never fails the request |
| NewsletterViews.NewsletterTable.HandleConfirm | apps/newsletter/views.py:84-148 | the status and table are those of `Confirm` |
| NewsletterViews.NewsletterTable.HandleUnsubscribeByToken | apps/newsletter/views.py:153-210 | the status and table are those of `UnsubscribeByToken` |
| NewsletterViews.NewsletterTable.HandleUnsubscribe | apps/newsletter/views.py:71-79 | the status and table are those of `Unsubscribe` |
| PrayerModels.RequesterDisplayName | apps/prayer/models.py:74-78 | "Anonymous" when anonymous, else the name |
| PrayerModels.PrayedBy | apps/prayer/models.py:94-95 | the given name, else the user's full name, else "Anonymous" |
| PrayerModels.PrayerDisplay | apps/prayer/models.py:94-96 | "Prayer by <who> for <title>" |
| PrayerModels.UrgencyOrderIsLexicographic | apps/prayer/models.py:69 | descending urgency strings put urgent first, then normal, then low before high |
| PrayerModels.NewPrayerRequest | apps/prayer/models.py:45-64 | defaults: title "Prayer Request", urgency normal, status active, not public, approved, unanswered, 0 prayers |
| PrayerSerializers.ValidateRequestText | apps/prayer/serializers.py:74-77 | accepted exactly when the stripped text has at least 10 characters; the accepted text is returned unstripped |
| PrayerSerializers.BlankTextRefused | apps/prayer/serializers.py:75-76 | whitespace-only text is refused however long it is |
| PrayerSerializers.NewPrayer | apps/prayer/serializers.py:92-96 | the new prayer records the request and the caller; the payload's name, message and anonymity, blank or false when absent |
| PrayerSerializers.PrayFor | apps/prayer/serializers.py:88-104 | exactly one new prayer, `NewPrayer` of the request and the caller, appended, and only that request's count raised by 1 |
| PrayerViews.PrayerRequestList | apps/prayer/views.py:30-35 | for a request without filter, `search` or `ordering` parameters: an order-preserving subsequence holding exactly the public, approved, active requests; sortedness is kept |
| PrayerViews.MyPrayerRequests | apps/prayer/views.py:107-110 | exactly the caller's own requests, public or not, in order |
| PrayerViews.Pray | apps/prayer/views.py:72-97 | status 200, 201 or 404; 200 exactly when the signed-in user (matched by id) already prayed, with no change; otherwise 404 exactly for a non-public or unapproved request; otherwise 201, with `NewPrayer` appended and that request's count raised by 1 |
| PrayerViews.AnonymousAlwaysCounted | apps/prayer/views.py:86-97 | anonymous calls on a prayable request always give 201 |
| PrayerViews.SecondPrayerIgnored | apps/prayer/views.py:88-95 | a signed-in user's second prayer on the same request gives 200 and changes nothing |
| PrayerViews.Stats | apps/prayer/views.py:130-145 | answered, active and public are each ≤ total, and total prayers is the table size |
| PrayerViews.PrayerTables.CreateRequest | apps/prayer/views.py:45-48 | 400 with no change exactly for text that is too short; otherwise 201 and the new request appended |
| PrayerViews.PrayerTables.PrayForRequest | apps/prayer/views.py:83-97 | the status and tables are those of `Pray` |
| DonationModels.ProgressPercentage | apps/donations/models.py:31-35 | 0 for a goal ≤ 0; within [0, 100] otherwise; exactly 100 when the goal is reached |
| DonationModels.ProgressMonotone | apps/donations/models.py:33-34 | more money raised never lowers the progress |
| DonationModels.ZeroGoalCompletedAtZeroProgress | apps/donations/models.py:31-39 | a zero goal is completed while showing 0 progress |
| DonationModels.CompletedIffFullProgress | apps/donations/models.py:31-39 | with a positive goal, completed exactly when the progress is 100 |
| DonationModels.DonorDisplayName | apps/donations/models.py:107-111 | "Anonymous" when anonymous; else the donor name, else the user's full name, else "Anonymous" |
| DonationModels.AnonymousHidesDonor | apps/donations/models.py:109-110 | an anonymous gift never shows the donor's own name |
| DonationSerializers.ValidateAmount | apps/donations/serializers.py:52-57 | accepted exactly when 0 < amount ≤ $10,000; the value is returned unchanged |
| DonationSerializers.NewDonation | apps/donations/serializers.py:44-50 | the new row is pending, with no transaction id, USD, card payment unless given, and the caller as user |
| DonationViews.StripeAmount | apps/donations/views.py:42 | the amount sent to Stripe is `amount × 100` truncated, never negative for a non-negative amount |
| DonationViews.StripeAmountOfCents | apps/donations/views.py:42 | a two-decimal amount reaches Stripe as exactly its number of cents |
| DonationViews.AfterStripe | apps/donations/views.py:39-62 | no Stripe step leaves the row unchanged; an intent records its id as both ids; a Stripe error marks it failed |
| DonationViews.CreateDonationAsWritten | apps/donations/views.py:33-66 | as written: no client secret is ever returned, and a refused amount gives 400 with no change |
| DonationViews.CreateDonation | apps/donations/views.py:33-66 | 400 with no change exactly for a refused amount; otherwise one row appended, and 200 with the client secret, 400 on a Stripe error, or 201 |
| DonationViews.CreateKeepsValid | apps/donations/models.py:88 | a created donation keeps non-empty transaction ids unique |
| DonationViews.AsWrittenNeverHandsOutSecret | apps/donations/views.py:54-59 | as written the client never receives the client secret the intended view returns |
| DonationViews.SecondBlankTransactionRefused | apps/donations/models.py:88 | as written, a second cash donation collides with the first one's blank transaction id |
| DonationViews.AddToCampaignCredits | apps/donations/views.py:126-128 | only the donation's campaign gains, by its amount; a donation without a campaign changes nothing |
| DonationViews.WebhookAsWritten | apps/donations/views.py:104-145 | as written: 400 for a refused event; no donation becomes completed and no campaign changes |
| DonationViews.Webhook | apps/donations/views.py:104-145 | 400 with no change for a refused event; an unknown intent or event type gives 200 with no change; `failed` sets only the status; `succeeded` completes the donation and credits its campaign |
| DonationViews.SucceededEventFailsAsWritten | apps/donations/views.py:121-122 | for a known intent the `succeeded` event never completes the donation as written, while the intended webhook does |
| DonationViews.SucceededReplayCountsTwice | apps/donations/views.py:114-128 | the same `succeeded` event delivered twice credits the campaign twice |
| DonationViews.FailedEventOverridesCompleted | apps/donations/views.py:133-141 | a `failed` event after completion sets the donation back to failed |
| DonationViews.DonationHistory | apps/donations/views.py:76-80 | exactly the caller's completed donations, a permutation of their rows, newest first |
| DonationViews.CampaignList | apps/donations/views.py:90-91 | exactly the active campaigns, featured first, then newest start first |
| DonationViews.Stats | apps/donations/views.py:176-198 | all figures 0 for no donations; monthly ≤ total; counts bounded by the tables |
| DonationViews.DonationTables.CreateDonationRequest | apps/donations/views.py:26-66 | the reply and table are those of `CreateDonation` |
| DonationViews.DonationTables.StripeWebhook | apps/donations/views.py:96-145 | the status and tables are those of `Webhook` |
| SermonModels.NewSermon | apps/sermons/models.py:57-64 | a new sermon has no views or downloads and is neither published nor featured |
| SermonModels.ViewCounted | apps/sermons/models.py:75-77 | one more view and no other field changed |
| SermonModels.DownloadCounted | apps/sermons/models.py:79-81 | one more download and no other field changed |
| SermonModels.CountersCommute | apps/sermons/models.py:75-81 | the two counters never affect each other, and their order does not matter |
| SermonModels.SermonCount | apps/sermons/models.py:30-32 | the number of sermons in the series |
| SermonModels.SermonCountAfterAdd | apps/sermons/models.py:30-32 | adding a sermon raises only its own series' count, by one |
| SermonFilters.HasAudio | apps/sermons/filters.py:25-28 | `true` keeps the sermons whose audio is not blank (NULL included); `false` keeps the blank ones |
| SermonFilters.HasAudioPartitions | apps/sermons/filters.py:25-28 | every sermon is in exactly one of the two results |
| SermonFilters.HasVideo | apps/sermons/filters.py:30-37 | `true` needs a non-empty URL and a file that is not blank; `false` needs both blank |
| SermonFilters.HalfVideoInNeither | apps/sermons/filters.py:30-37 | a sermon with only one video field set is in neither result |
| SermonFilters.HasVideoDisjoint | apps/sermons/filters.py:32-37 | no sermon is in both results |
| SermonFilters.TagList | apps/sermons/filters.py:40 | one stripped name per comma-separated piece |
| SermonFilters.TagListClean | apps/sermons/filters.py:40 | every name is free of commas and of surrounding whitespace |
| SermonFilters.ByTags | apps/sermons/filters.py:39-41 | exactly the sermons with a listed tag, in order, without duplicates |
| SermonFilters.DateRange | apps/sermons/filters.py:15-16 | exactly the sermons within both bounds |
| SermonFilters.DateBoundsInclusive | apps/sermons/filters.py:15-16 | both bounds are inclusive |
| SermonViews.SermonSearch | apps/sermons/views.py:192-221 | an order-preserving subsequence of exactly the published sermons that meet every non-empty criterion, without duplicates; all published sermons when every criterion is empty |
| SermonViews.Narrow | apps/sermons/views.py:203-218 | one narrowing step keeps a subsequence of the table and keeps it free of duplicates |
| SermonViews.EmptyCriteriaKeepAllPublished | apps/sermons/views.py:201-218 | empty criteria match every sermon |
| SermonViews.FeaturedSermons | apps/sermons/views.py:73 | exactly the published featured sermons, in order |
| SermonViews.TopTen | apps/sermons/views.py:82-91 | min(10, published) published sermons, sorted by the given order, every published sermon left out ordered after each listed one, all of them when at most 10 |
| SermonViews.RecentSermons | apps/sermons/views.py:82 | min(10, published) published sermons, latest preached first; none left out was preached later than a listed one |
| SermonViews.PopularSermons | apps/sermons/views.py:91 | min(10, published) published sermons, most viewed first; none left out has more views than a listed one |
| SermonViews.SermonTable.IncrementViewCount | apps/sermons/models.py:75-77 | only that row changes, to `ViewCounted` |
| SermonViews.SermonTable.IncrementDownloadCount | apps/sermons/models.py:79-81 | only that row changes, to `DownloadCounted` |
| SermonViews.SermonTable.Retrieve | apps/sermons/views.py:61-66 | 404 with nothing changed exactly for a missing or unpublished sermon; otherwise one more view, and the response shows it |
| SermonViews.SermonTable.TrackDownload | apps/sermons/views.py:166-187 | 404 with nothing recorded for a missing or unpublished sermon; otherwise one download record (file type defaulting to audio) and one more download |
| SermonViews.NewComment | apps/sermons/views.py:120-121 | the caller is the author, and a new comment is not approved |
| SermonViews.CommentList | apps/sermons/views.py:103-109 | exactly the approved top-level comments of the sermon, in order |
| SermonViews.NewCommentNotListed | apps/sermons/models.py:91 | a freshly posted comment is not listed |
| SermonViews.CommentsCount | apps/sermons/serializers.py:52-53 | every approved comment of the sermon, replies included, so at least the listed ones |
| SermonViews.Serialize | apps/sermons/serializers.py:68-75 | the comment's id, text, approval and author (whose full name is `user_name`), and no more replies than it has |
| SermonViews.RepliesEmptyIffNoneApproved | apps/sermons/serializers.py:68-75 | the rendered replies are empty exactly when no reply is approved |
| SermonViews.SerializedRepliesApproved | apps/sermons/serializers.py:70-71 | no unapproved comment appears anywhere in the rendered tree |
| SermonViews.SerializedListApproved | apps/sermons/serializers.py:70-71 | every rendered reply is approved, and so are the replies under it at every depth |
| SermonViews.ReplyAdded | apps/sermons/serializers.py:69-75 | an unapproved reply leaves the rendering unchanged, whole subtree included; an approved one is appended |
| SermonViews.SerializeRepliesAppend | apps/sermons/serializers.py:68-75 | rendering a list with one more tree appends that tree's rendering exactly when it is approved |
| SermonViews.SermonsCount | apps/sermons/serializers.py:111-112 | the number of items on the playlist |
| SermonViews.PlaylistList | apps/sermons/views.py:131-136 | public playlists, plus the caller's own when signed in |
| CoreModels.PositionDisplay | apps/core/models.py:63-73 | every position has a non-empty label |
| CoreModels.StaffDisplay | apps/core/models.py:90-91 | "name - position label" |
| CoreModels.StaffOrderFirst | apps/core/models.py:86 | staff are ordered by `order`, then by name |
| CoreModels.NeverCurrent | apps/core/models.py:141-144 | an inactive announcement, or one whose start is after its end, is never current |
| CoreModels.IsCurrent | apps/core/models.py:141-144 | a current announcement is active and has a non-empty window |
| CoreModels.PriorityOrderIsLexicographic | apps/core/models.py:136 | descending priority strings put urgent first, then normal, then low before high |
| CoreViews.ChurchInfoObject | apps/core/views.py:24-29 | the first active record, or none exactly when no record is active |
| CoreViews.AnnouncementList | apps/core/views.py:57-63 | an order-preserving subsequence of exactly the current announcements; sortedness is kept |
| CoreViews.LatestActive | apps/core/views.py:78-82 | an active verse with the latest date, none exactly when no verse is active |
| CoreViews.VerseOfTheDay | apps/core/views.py:72-83 | none (404) exactly when no verse is active; today's active verse when there is one; otherwise the latest active verse |
| CoreViews.TodayVerseUnique | apps/core/models.py:153 | with unique dates, today's active verse is the one returned |
| CoreViews.FallbackMayBeFuture | apps/core/views.py:78-82 | the fallback can be a verse dated after today |
| CoreViews.ContactMessages | apps/core/views.py:136-140 | staff see every message; other users see none |
| MemberModels.FullName | apps/members/models.py:59-61 | the user's full name, else the username |
| MemberModels.Age | apps/members/models.py:63-70 | none exactly without a date of birth; the year difference on the birthday; never negative for a birth not after today |
| MemberModels.AgeCountsBirthdays | apps/members/models.py:65-69 | the age is the number of birthdays that have passed |
| MemberModels.AgeStepsOnBirthday | apps/members/models.py:67-69 | the age rises by one on the birthday itself |
| MemberModels.LeapDayBirthday | apps/members/models.py:67-69 | a 29 February birth ages on 1 March in non-leap years |
| ApiClient.AttachToken | src/services/api.js:15-18 | a stored non-empty access token adds `Authorization: Bearer <token>`; otherwise the request is unchanged |
| ApiClient.Send | src/services/api.js:27-55 | the first request sent is the original with the token attached; a successful reply resolves the call with storage untouched |
| ApiClient.AtMostOneRetry | src/services/api.js:32-45 | at most one refresh and at most two requests per call |
| ApiClient.OtherErrorsPassThrough | src/services/api.js:32 | non-401 failures are rejected unchanged with storage untouched |
| ApiClient.FlaggedRequestNotRefreshed | src/services/api.js:32 | a failure of a request already marked as retried is rejected with no refresh |
| ApiClient.NoRefreshTokenRejects | src/services/api.js:36-37 | with no refresh token a 401 is rejected, tokens kept, no redirect |
| ApiClient.RefreshThenRetry | src/services/api.js:38-45 | a successful refresh stores the new token and re-sends once with the new bearer |
| ApiClient.FailedRefreshLogsOut | src/services/api.js:47-54 | a failed refresh removes both tokens, goes to `/login` and rejects |
| ApiClient.EmptyRefreshKeepsOldBearer | src/services/api.js:40-44 | an empty refreshed token is stored, but the retry still carries the old bearer |
| ApiClient.Browser.Call | src/services/api.js:27-55 | the settled result, the requests sent and the new storage and location are those of `Send` |
| FormRules.EmailPattern | src/pages/Donations.jsx:341 | accepted exactly when there is no whitespace and an `@` has a character on each side |
| FormRules.EmailPatternExamples | src/pages/Contact.jsx:180 | concrete accepted and refused addresses |
| FormRules.OrElse | src/pages/Contact.jsx:51 | a missing or empty value gives the fallback; otherwise the value |
| FormRules.CountOrElse | src/pages/Home.jsx:300 | a missing or zero count gives the fallback; otherwise a numeral that parses back to the count |
| PageText.StripTags | src/pages/About.jsx:299 | tag-free, no longer than the input, every character from the input; the text comes back unchanged exactly when it is already tag-free |
| PageText.StripTagsKeepsPlainPrefix | src/pages/Home.jsx:251 | text before the first `<` is kept, and the rest is stripped on its own |
| PageText.StripTagsAroundTag | src/pages/Home.jsx:251 | a complete tag after plain text is removed and the text before it kept |
| PageText.StripTagsExample | src/pages/Home.jsx:251 | `"ab<i>c</i>d"` becomes `"abcd"`: the text between tags is kept |
| PageText.StripTagsPlain | src/pages/Home.jsx:251 | text without `<` is unchanged |
| PageText.StripTagsLeadingTag | src/pages/Home.jsx:251 | a leading complete tag is removed |
| SermonsPage.FilteredSermons | src/pages/Sermons.jsx:85-91 | an order-preserving subsequence of exactly the sermons matching the term and the series; all of them for empty criteria |
| SermonsPage.FormatDuration | src/pages/Sermons.jsx:101-105 | "<m>m" under an hour; an hours part otherwise |
| SermonsPage.DurationRoundTrip | src/pages/Sermons.jsx:101-105 | reading the label back gives the same number of minutes, for every duration |
| SermonsPage.SermonList.FetchSermons | src/pages/Sermons.jsx:18-67 | a fetched list is shown as is; a thrown error shows the 3-item fallback; loading ends in every case |
| SermonDetailPage.Play | src/pages/SermonDetail.jsx:65-71 | toggles playing; adds a view only when starting; downloads untouched |
| SermonDetailPage.Download | src/pages/SermonDetail.jsx:73-77 | adds one download, whatever the file type; views and playing untouched |
| SermonDetailPage.PlayPauseCountsOnce | src/pages/SermonDetail.jsx:65-71 | play then pause adds exactly one view |
| SermonDetailPage.PauseCountsNothing | src/pages/SermonDetail.jsx:68-70 | pausing adds no view |
| SermonDetailPage.PlayDownloadCommute | src/pages/SermonDetail.jsx:69-76 | plays and downloads never affect each other's counters |
| SermonDetailPage.FallbackSermon | src/pages/SermonDetail.jsx:37-56 | the fallback's id is `parseInt` of the route id |
| SermonDetailPage.SermonDetailView.FetchSermon | src/pages/SermonDetail.jsx:24-63 | the fetched sermon, or the fallback on any failure; loading ends |
| SermonDetailPage.SermonDetailView.HandlePlay | src/pages/SermonDetail.jsx:65-71 | the new state is `Play` of the old |
| SermonDetailPage.SermonDetailView.HandleDownload | src/pages/SermonDetail.jsx:73-87 | the new state is `Download` of the old |
| EventsPage.ApplyFilters | src/pages/Events.jsx:116-134 | an order-preserving subsequence of exactly the events matching the term and the category; all events for empty criteria |
| EventsPage.UncategorisedDropped | src/pages/Events.jsx:127-131 | an uncategorised event fails a selected category |
| EventsPage.FallbackEventsPast | src/pages/Events.jsx:15-72 | from February 2024 on, no fallback event is upcoming |
| EventsPage.EventList.FetchEvents | src/pages/Events.jsx:81-94 | the fetched list, or the fallback on a non-ok response or a thrown error |
| EventDetailPage.SidebarFor | src/pages/EventDetail.jsx:323-337 | the form shows exactly when not registered, registration is required and open; confirmation exactly when registered |
| EventDetailPage.FallbackEvent | src/pages/EventDetail.jsx:44-77 | the fallback's id is `parseInt` of the route id, and it shows the form |
| EventDetailPage.EventDetailView.FetchEventDetail | src/pages/EventDetail.jsx:36-84 | ok gives the data, non-ok the fallback, a throw the error message; loading ends |
| EventDetailPage.EventDetailView.HandleRegistration | src/pages/EventDetail.jsx:86-120 | registered in every case; the count rises by the attendees unless the request threw; registering ends |
| EventDetailPage.EventDetailView.SelectAttendees | src/pages/EventDetail.jsx:417-428 | the chosen number from 1 to 5 is stored |
| PrayerPage.FilteredRequests | src/pages/Prayer.jsx:64-69 | `[]` without data; otherwise an order-preserving subsequence of exactly the requests matching the term and the category |
| PrayerPage.FormLooserThanServer | src/pages/Prayer.jsx:421-424 | whatever the server accepts the form accepts; ten blanks pass the form and are refused by the server |
| PrayerPage.FormAccepts | src/pages/Prayer.jsx:344-424 | an accepted form has a name and a title and at least ten characters of details |
| PrayerPage.PrayBody | src/pages/Prayer.jsx:53-62 | a pray click always sends "Anonymous" with `is_anonymous` true |
| PrayerPage.SecondClickIgnored | src/pages/Prayer.jsx:53-62 | for a signed-in user the second click is answered 200 and not counted |
| PrayerPage.PrayerWall.OnSubmitPrayerRequest | src/pages/Prayer.jsx:43-51 | success resets the form and closes the modal; failure changes neither |
| LiveStreamPage.SendMessage | src/pages/LiveStream.jsx:63-75 | blank input changes nothing; otherwise the untrimmed input is put first, the rest keep their order, and the box is cleared |
| LiveStreamPage.BlankInputIgnored | src/pages/LiveStream.jsx:65 | the chat is unchanged exactly when the input is all whitespace |
| LiveStreamPage.NewestFirst | src/pages/LiveStream.jsx:66-72 | two sends show the later message first |
| LiveStreamPage.LiveStreamView.CurrentStreamChanged | src/pages/LiveStream.jsx:46-61 | a non-empty list makes the page live with 50 to 549 viewers; nothing turns it off; the chat becomes the four samples |
| LiveStreamPage.LiveStreamView.HandleSendMessage | src/pages/LiveStream.jsx:63-75 | the new chat is `SendMessage` of the old |
| LiveStreamPage.LiveStreamView.Type | src/pages/LiveStream.jsx:246 | the chat input becomes the typed text; messages and stream state are unchanged |
| DonationsPage.PresetsAccepted | src/pages/Donations.jsx:52 | every preset passes the amount rule and enables the button |
| DonationsPage.EmptyAmountBlocks | src/pages/Donations.jsx:396 | an empty amount disables the button and fails the form |
| DonationsPage.AmountAccepted | src/pages/Donations.jsx:303-306 | an accepted amount is non-empty and starts with a digit |
| DonationsPage.FormAccepts | src/pages/Donations.jsx:303-343 | an accepted form also enables the submit button |
| DonationsPage.SubmitEnabled | src/pages/Donations.jsx:396 | the button is enabled only when not processing and the amount is non-empty |
| DonationsPage.ProgressWidth | src/pages/Donations.jsx:191 | the width is capped at 100 and otherwise equals the progress |
| DonationsPage.WidthIsProgress | src/pages/Donations.jsx:191 | the server's capped percentage is shown as is |
| DonationsPage.ActiveCampaignsStat | src/pages/Donations.jsx:90 | the number of campaigns, or "3" when the list is missing or empty |
| DonationsPage.DonationsView.HandleAmountSelect | src/pages/Donations.jsx:83-86 | the highlighted preset and the form amount become the same numeral, which parses back to the amount |
| DonationsPage.DonationsView.OnSubmit | src/pages/Donations.jsx:63-81 | nothing is sent, the form is kept, processing ends |
| ContactPage.OptionalFields | src/pages/Contact.jsx:162-244 | phone and message type never affect acceptance |
| ContactPage.FormAccepts | src/pages/Contact.jsx:162-244 | an accepted message has a name, subject and message, and an e-mail of at least three characters |
| ContactPage.ContactInfoShown | src/pages/Contact.jsx:51-77 | address, phone, e-mail and both service times each show the loaded field when it is present and non-empty, and the built-in fallback otherwise; the second phone only when present and non-empty, never a fallback |
| ContactPage.ContactView.OnSubmit | src/pages/Contact.jsx:31-41 | a sent message resets the form, a failure keeps it; submitting ends |
| NavbarState.IsActive | src/components/layout/Navbar.jsx:51-54 | `/` only on `/` itself; any other href on every path starting with it |
| NavbarState.PrefixNotSegmentAware | src/components/layout/Navbar.jsx:53 | "Live" is active on `/livestream` |
| NavbarState.OnlyHomeOnRoot | src/components/layout/Navbar.jsx:31-54 | on `/` only the home link is active |
| NavbarState.SectionStaysActive | src/components/layout/Navbar.jsx:53 | a deeper path keeps its section active |
| NavbarState.Navbar.HandleScroll | src/components/layout/Navbar.jsx:23-29 | scrolled exactly when `scrollY > 50` |
| NavbarState.Navbar.Toggle | src/components/layout/Navbar.jsx:178 | the menu flips |
| NavbarState.Navbar.MobileLinkClicked | src/components/layout/Navbar.jsx:203 | the menu closes |
| NavbarState.Navbar.MouseEnter | src/components/layout/Navbar.jsx:90 | that dropdown, and only it, is open |
| NavbarState.Navbar.MouseLeave | src/components/layout/Navbar.jsx:91 | no dropdown is open |
| HomePage.SlugHasNoSpace | src/pages/Home.jsx:255 | the slug holds no whitespace and is no longer than the name |
| HomePage.Slug | src/pages/Home.jsx:255 | the slug is empty exactly when the name is |
| HomePage.SlugOfWord | src/pages/Home.jsx:255 | a name without whitespace is only lowered |
| HomePage.SlugOfRun | src/pages/Home.jsx:255 | a whole whitespace run between words becomes exactly one `-` |
| HomePage.Snippet | src/pages/Home.jsx:251 | the first min(120, length) characters of the tag-stripped description followed by "..."; only "..." without a description; a short plain description is kept whole |
| HomePage.Tile | src/pages/Home.jsx:234-259 | the tile keeps the name, its snippet is `Snippet` of the description, and its link is `/ministries#` followed by `Slug` of the name, without whitespace |
| HomePage.Home | src/pages/Home.jsx:45-372 | the spinner exactly while church info loads; otherwise the first ≤ 6 ministries and ≤ 3 sermons and events in API order, and the staff and ministry figures: a loaded non-zero count is shown as its numeral, otherwise "10+" and "5+" |
| AboutPage.Apostle | src/pages/About.jsx:33 | the first staff member whose position is "apostle" (no earlier member is one), none exactly when there is no such member |
| AboutPage.Team | src/pages/About.jsx:288 | an order-preserving subsequence holding exactly the staff who are not apostles |
| AboutPage.TeamAndApostles | src/pages/About.jsx:288 | team plus apostles account for all the staff |
| AboutPage.ShowsTeam | src/pages/About.jsx:279 | the team section shows exactly when the loaded staff list has at least two members |
| AboutPage.LoneMemberHidden | src/pages/About.jsx:279-288 | a single non-apostle is in the team, yet the section stays hidden: the guard counts all staff |
| AboutPage.TwoApostlesEmptyTeam | src/pages/About.jsx:279-288 | two apostles open the team section with an empty grid |
| AboutPage.Bio | src/pages/About.jsx:299 | the shown bio is the tag-stripped bio: tag-free, no longer than the bio, unchanged exactly when the bio is tag-free |
| AboutPage.MissionAndVision | src/pages/About.jsx:118-128 | mission and vision, or their built-in texts when missing or empty |

## Left out

- HTTP transport, `localStorage`, `window.location`, `fetch`/axios, `alert`, `setTimeout`, `navigator` and `send_mail` are not modelled. Server replies, the refresh call's outcome, Stripe's answer and the mail outcome are parameters.
- Stripe signature checking and `PaymentIntent.create` are not modelled. The parsed webhook event and Stripe's reply are inputs.
- Concurrency is not modelled. Each request is one atomic step, so read-modify-write races on `viewer_count`, `prayer_count`, `view_count` and campaign totals are out of scope.
- Decimal arithmetic is not modelled: amounts are integer cents, and progress is an exact `real` without the 28-digit rounding.
- Locale-dependent date and time formatting is not modelled.
- `Math.random` is not modelled: the live-stream viewer draw is a parameter below 500.
- Case folding and whitespace are ASCII only. Python's `str.strip`/`icontains` and JavaScript's `\s` also cover Unicode.
- JavaScript `parseInt` is modelled on leading decimal digits only. Leading whitespace and signs are not modelled.
- DonationsPage.AmountAccepted reads the integer part of the amount field. An amount such as "0.5" is refused by it, as by the `min: 1` rule.
- SermonFilters.DateRange treats `date_from`/`date_to` as instants, not as calendar dates converted in the server's time zone.
- The serializers' field validation is not modelled: payloads are taken to pass the declared field rules (required fields, `max_length`, `EmailField` syntax, choices and foreign keys). The 400 answers for those are not modelled, so the modelled registration, subscription, prayer and donation endpoints answer 201 where such a field would be refused.
- EventViews.EventList: the list view's `DjangoFilterBackend`, `SearchFilter` and `OrderingFilter` (apps/events/views.py:25-29) are not modelled. Its `category`, `ministry`, `requires_registration`, `search` and `ordering` parameters would narrow or re-sort the list; the model states the list for a request without them.
- PrayerViews.PrayerRequestList: the same holds for apps/prayer/views.py:24-28. Its `category`, `urgency`, `status`, `is_answered`, `search` and `ordering` parameters are not modelled.
- The sermon list view's filter backends (apps/sermons/views.py:46-50) are not modelled as a composed list: `SermonFilter`'s methods are modelled one by one in SermonFilters, and its `search` over title, description, scripture reference and preacher name, and `ordering`, are not modelled. The separate search endpoint is SermonViews.SermonSearch.
- Validation of `ModelChoiceFilter` values (an unknown preacher or series id) is not modelled.
- The front end's unwrapping of `data.results || data` is abstracted: pages receive the list directly.
- apps/core/views.py cannot be imported as written, for two reasons:
  - line 12 imports `Program`, which apps/core/models.py does not define;
  - line 176 uses a non-existent `ministry_type` field.

  The views are modelled as the rest of the file evidently intends.
- The contact-message notification mail at apps/core/views.py:108 calls `get_message_type_display`, which this model cannot resolve. The exception is swallowed at lines 124-125, so the message is saved and no mail goes out. Mail is not modelled either way.
- The About page looks for position "apostle", which is not among the backend's position choices. AboutPage models the page on the strings it receives.
- EventDetailPage.EventDetailView.HandleRegistration requires a loaded event, because the form is only rendered with one. The updater's behaviour on a null event is not modelled.
- The About page's loading spinner and the JSX markup, styling and animation are not modelled.
- The Django admin classes, settings, URL configuration and the members app's view stubs are not modelled.
- apps/events/urls.py, which calls `.as_view()` on a function view, is not part of this model.

## Findings

| source | as written | input that shows it | evidently intended | confidence | as-written member | corrected member |
|---|---|---|---|---|---|---|
| apps/events/views.py:100-118 | `perform_create` returns 404/400 `Response` objects that `CreateAPIView` discards, so the client gets 201 with nothing saved | registration for a non-existent event id | 404 for a missing or unpublished event, 400 when registration is closed | high, not executed | EventViews.MissingEventAnswered201 | EventViews.Register |
| apps/newsletter/serializers.py:69 | `timezone` is not imported in the module, so `save` raises before the subscriber is made inactive | unsubscribing an active subscriber's e-mail | the subscriber becomes inactive and the request succeeds | high, not executed | NewsletterViews.UnsubscribeAsWrittenKeepsActive | NewsletterViews.Unsubscribe |
| apps/newsletter/serializers.py:27-47 | the serializer generated for the unique `email` field refuses any existing e-mail before `create` runs, so the reactivation branch is unreachable | re-subscribing an e-mail whose row is inactive | the inactive row is reactivated, unconfirmed, with 201 | medium, not executed | NewsletterViews.ReactivationUnreachableAsWritten | NewsletterViews.Subscribe |
| apps/donations/views.py:54-59 | the `Response` carrying the client secret is returned from `perform_create` and discarded | a card donation with Stripe configured and an intent created | the client receives the donation id and client secret | high, not executed | DonationViews.AsWrittenNeverHandsOutSecret | DonationViews.CreateDonation |
| apps/donations/models.py:88 | `transaction_id` is unique but blank for every non-card donation, so the second such donation violates the constraint | two cash donations in a row | only non-empty transaction ids are unique | medium, not executed | DonationViews.SecondBlankTransactionRefused | DonationViews.CreateKeepsValid |
| apps/livestream/views.py:58-63 | the slice `[:5]` runs over the table's `-scheduled_start` order, so it keeps the five streams scheduled furthest ahead | six public scheduled streams at times 1 to 6, now 0: the stream at time 1 is left out | the five streams starting soonest | medium, not executed | LivestreamViews.UpcomingStreamsSkipsNext | LivestreamViews.NextStreams |
| apps/donations/views.py:122 | `timezone` is only imported inside `donation_stats`, so the `succeeded` branch raises before saving | a `payment_intent.succeeded` event for a known intent | the donation becomes completed and its campaign is credited | high, not executed | DonationViews.SucceededEventFailsAsWritten | DonationViews.Webhook |
