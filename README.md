# News site notification dispatcher, modelled in Dafny

The news site lets users subscribe to post categories. Three paths send mail:

- Subscribing sends a confirmation mail.
- Attaching categories to a post mails each category's subscribers.
- A scheduled job mails a weekly digest for every digest subscription.

The scheduler also prunes its job-execution history and keeps an id-keyed job store.
This project models those paths over an explicit state.
The state is the `Db.Store` class. It holds users, categories with their subscriber lists, posts, digest subscriptions, job-execution records, the job store and the mail outbox.

Files and modules:

- `domain.dfy` (`Domain`): the entities and the foreign-key predicates.
- `mail.dfy` (`Mail`): the mail transport. A send appends to the outbox or raises. The outcome of every send is a parameter (`ok`, or `oks` with one entry per send slot), so each contract holds for every outcome. `SendAll` runs a batch of sends with no exception handler. `FirstFailure` and `Attempts` form an independent reference definition of that batch, and `SendAllDeliversUpToFirstFailure` proves the two agree.
- `store.dfy` (`Db`): the `Store` class, its database constraints (`Valid`) and the transport's `Send`.
- `views.dfy` (`Views`): news/views.py. It covers subscribe and unsubscribe, the two membership checks, `get_subscribers` and `new_post_subscriptions`.
- `signals.dfy` (`Signals`): news/signals.py.
- `scheduler.dfy` (`Scheduler`): news/management/commands/runapscheduler.py. It covers the digest job, history pruning and job registration.

Assumptions that come from libraries outside the model:

- Django's `EmailMessage.send` drops empty addresses from the recipient list and contacts no backend when no address is left (`Mail.Attempted`: some address is non-empty). Such a send neither delivers nor raises. A category none of whose subscribers has a non-empty email therefore gets no mail, and neither does a subscriber with a blank email.
- A category prints as its `name`. A post's absolute URL is its `url` field. Both come from the models module, which is not part of this model.
- The rows of `Post.objects.filter(category__in=…)` are a join without `distinct()`. They come post by post, and within a post in category order.

Where the design and the code disagree, the model follows the code:

- A failing send in `new_post_subscriptions` is not caught (news/views.py:198). It ends the loop over categories and propagates through the signal handler. The design says failures are caught per category.
- The digest goes to the literal recipient list `[""]` (runapscheduler.py:47), not to the subscriber. Its subject is the fixed Russian text from line 44. Django drops the empty address, so no digest ever reaches the transport: `my_job` composes digests but delivers nothing and cannot fail. Its `send_mail` has no handler, so a failure would end the run, but none can happen as the code is written. The design says every subscriber gets a digest and one user's failure does not stop the others.
- `my_job` is registered with a cron trigger every 10 seconds, not weekly.
- Nothing deduplicates already-notified subscribers.

## Model

| member | source | states |
|---|---|---|
| `Mail.SendAll` | news/views.py:181-198 | sends the slots in order with no handler: it delivers at most one mail per slot, and it raises only when some slot's send raises |
| `Mail.SendAllWithoutAttempts` | news/management/commands/runapscheduler.py:29-49 | a batch none of whose mails has a non-empty address delivers nothing and never raises, whatever the transport does |
| `Mail.FirstFailure` | news/views.py:181-198 | the first send slot whose send raises, or the batch length: no earlier slot raises and that slot does |
| `Mail.SendAllDeliversUpToFirstFailure` | news/views.py:181-198 | an unguarded batch of sends delivers exactly the attempted mails before the first raising slot, and raises iff some slot raises |
| `Mail.SendAllStopsAfterRaise` | news/views.py:198 | once a send has raised, the slots after it deliver nothing more |
| `Mail.SendAllRaisesAtFirstFailingSlot` | news/views.py:198 | when a slot's send raises after all earlier sends succeeded, exactly the attempted mails before it are delivered and the batch raises |
| `Mail.SendAllWithoutFailures` | news/views.py:181-198 | when every send succeeds, every attempted mail is delivered in order and nothing raises |
| `Mail.SendAllDeliversFromSlots` | news/management/commands/runapscheduler.py:29-49 | a batch delivers at most one mail per slot, and only mails of its slots that had recipients |
| `Db.Store.Send` | news/views.py:143-144 | a send with at least one non-empty address appends the mail to the outbox when the transport succeeds and raises when it fails; a send whose addresses are all empty, or that has none, does neither |
| `Views.AddSubscriber` | news/views.py:126-127 | after the add the user is a subscriber, nobody else joins, earlier subscribers keep their order, and no user appears twice |
| `Views.RemoveSubscriber` | news/views.py:155-156 | after the remove exactly that user is gone and every other subscriber remains |
| `Views.RemoveAbsentSubscriber` | news/views.py:155 | removing a user who is not a subscriber changes nothing |
| `Views.RemoveOneSubscriber` | news/views.py:156 | removing a subscriber from a duplicate-free list shortens it by one and keeps it duplicate-free |
| `Views.UnsubscribeUndoesSubscribe` | news/views.py:122-157 | unsubscribing right after a fresh subscription restores the subscriber list exactly |
| `Views.MembershipChecksAgreeOnDistinctEmails` | news/views.py:116-117 | when no two users share an email, hiding the category (no subscriber has the viewer's email) is the same as the viewer not being subscribed by id |
| `Views.IsSubscribed` | news/views.py:162 | the viewer is subscribed iff some entry of the subscriber list is the viewer's id; an anonymous viewer never is |
| `Views.ExposesCategory` | news/views.py:116-117 | the category is put into the page iff no subscriber's email equals the viewer's email |
| `Views.MembershipChecksDifferOnSharedEmail` | news/views.py:116-117 | when a subscriber shares the email of a viewer who is not subscribed, the id check says not subscribed yet the category is hidden from them |
| `Views.MembershipChecksDiffer` | news/views.py:162 | an example of the disagreement: users 1 and 2 share an address and only user 1 subscribes, so user 2 is not subscribed yet is not offered the category |
| `Views.SubscribedMail` | news/views.py:128-141 | the confirmation goes to the user's email alone, and reaches the transport iff that email is non-empty |
| `Views.SubscribeToCategory` | news/views.py:122-148 | an anonymous visitor or a missing category changes nothing. An existing subscriber changes nothing and gets no mail. A new subscriber is appended and handed one confirmation titled "<category> subcription", which reaches the transport only when their email is non-empty; a failing send is swallowed and the membership stays. The store's constraints are kept. |
| `Views.UnsubscribeFromCategory` | news/views.py:151-157 | removes the viewer from that one category only; a no-op for a non-subscriber, an anonymous visitor or a missing category; keeps the store's constraints |
| `Views.GetSubscribers` | news/views.py:171-175 | returns one email per subscriber, in subscriber order, so the list is as long as the subscriber list |
| `Views.NewPostMail` | news/views.py:182-196 | the mail for one category has one address per subscriber, in subscriber order, is about that category and post, and reaches the transport iff some subscriber has a non-empty email |
| `Views.NewPostMails` | news/views.py:181-196 | one mail per category entry of the post, in the post's category order, each about its category and the post |
| `Views.NewPostSubscriptions` | news/views.py:178-198 | the outbox grows by exactly what the unguarded batch delivers. The batch has one mail per category of the post, in category order, addressed to that category's subscriber emails. `raised` reports the failure that ends it. |
| `Views.NewPostFanOutWithoutFailures` | news/views.py:181-198 | with no failures, every delivered mail names one of the post's categories in its subject and goes to all of that category's subscribers, and categories none of whose subscribers has a non-empty email get none |
| `Views.NewPostFailureStopsLaterCategories` | news/views.py:198 | if the k-th category's mail reaches the transport and its send raises, only the mails of the earlier categories are delivered |
| `Views.TechLaunchExample` | news/views.py:178-198 | post "Launch" in category Tech with subscribers a@x.com and b@x.com yields exactly one mail, to both, and nothing for the other category |
| `Signals.Dispatches` | news/signals.py:8-10 | the handler acts iff the change is on PostCategory and the action is none of pre_add, pre_remove, post_remove, pre_clear and post_clear |
| `Signals.OnlyPostAddOnPostCategoryNotifies` | news/signals.py:8-11 | of all m2m actions and relations, only post_add on PostCategory notifies; pre_add, removes and clears do not |
| `Signals.NotifySubscribers` | news/signals.py:9-11 | post_add runs the new-post fan-out once for that same post; any other action leaves the outbox alone and raises nothing |
| `Signals.M2MChanged` | news/signals.py:8 | changes of relations other than PostCategory never reach the handler |
| `Scheduler.WindowStart` | news/management/commands/runapscheduler.py:21-24 | the window starts exactly 604 800 seconds (one week) before now |
| `Scheduler.Rows` | news/management/commands/runapscheduler.py:34-37 | every row is one of the posts, has a subscribed category and was created at or after the window start |
| `Scheduler.MatchCount` | news/management/commands/runapscheduler.py:34-35 | counts a post's category entries that are subscribed; positive iff one of them is |
| `Scheduler.RowsAreTheSelectedPosts` | news/management/commands/runapscheduler.py:34-37 | a post is selected iff one of its categories is subscribed and it was created at or after the window start (inclusive) |
| `Scheduler.RowsRepeatPerMatchingCategory` | news/management/commands/runapscheduler.py:34-37 | without distinct(), a recent post is listed once per subscribed category entry, times its number of copies |
| `Scheduler.TechDigestExample` | news/management/commands/runapscheduler.py:29-37 | a subscription to Tech selects exactly the two recent Tech posts and omits the Sports post |
| `Scheduler.JoinLines` | news/management/commands/runapscheduler.py:41 | the joined text starts with the first line, and holds exactly one line break between each two lines when no line holds one |
| `Scheduler.SplitUndoesJoin` | news/management/commands/runapscheduler.py:41 | splitting the "\n"-joined article lines gives back the lines, when no line holds a line break |
| `Scheduler.DigestBody` | news/management/commands/runapscheduler.py:41-45 | the digest text starts with the greeting, followed directly by the first article line |
| `Scheduler.DigestBodyListsEachRow` | news/management/commands/runapscheduler.py:41-45 | after the greeting with the username, the digest holds one "title: url" line per selected row, in order |
| `Scheduler.DigestMail` | news/management/commands/runapscheduler.py:39-49 | a composed digest has the fixed subject, the fixed sender and the recipient list [""], and so never reaches the transport |
| `Scheduler.DigestSentIffRecentPostInCategories` | news/management/commands/runapscheduler.py:21-39 | a digest is composed for a subscription iff some post in its categories is at most 604 800 seconds older than now |
| `Scheduler.DigestRunSendsNothing` | news/management/commands/runapscheduler.py:29-49 | the unguarded batch of per-subscription digests delivers nothing and never raises, whatever the transport does |
| `Scheduler.MyJob` | news/management/commands/runapscheduler.py:19-49 | the outbox changes by exactly what the unguarded batch of per-subscription digests delivers, and `raised` is that batch's failure; as written that leaves the outbox unchanged and raises nothing |
| `Scheduler.Prune` | news/management/commands/runapscheduler.py:52-54 | keeps exactly the records that have not expired, and never more records than before |
| `Scheduler.PruneKeepsEveryYoungRecord` | news/management/commands/runapscheduler.py:52-54 | every copy of a record that has not expired survives |
| `Scheduler.PruneIdempotent` | news/management/commands/runapscheduler.py:52-54 | a second prune at the same time changes nothing |
| `Scheduler.PruneBoundary` | news/management/commands/runapscheduler.py:52-54 | a record exactly maxAge old survives iff the boundary keeps it; older ones go, younger ones stay |
| `Scheduler.DeleteOldJobExecutions` | news/management/commands/runapscheduler.py:52-54 | replaces the history by its pruned form, with 604 800 seconds as the default age |
| `Scheduler.Registered` | news/management/commands/runapscheduler.py:65-82 | the job store after registration holds the old ids plus "my_job" and "delete_old_job_executions", sets those two to their jobs and keeps every other entry |
| `Scheduler.RegistrationReplacesById` | news/management/commands/runapscheduler.py:65-82 | registration sets exactly "my_job" and "delete_old_job_executions", each with max_instances 1, and leaves other ids alone. Repeating it changes nothing, and an otherwise empty store ends with exactly two entries. |
| `Scheduler.AddJob` | news/management/commands/runapscheduler.py:65-71 | stores the job under its id, replacing an entry with that id when replace_existing holds, and reports a conflict otherwise |
| `Scheduler.Handle` | news/management/commands/runapscheduler.py:60-85 | the job store after handle is the registration of both jobs over the store before it |

## Left out

- The list, detail, create, update and delete views, filters.py and urls.py: ORM queries, pagination, forms and routing with no dispatch logic.
- Template rendering: HTML bodies are tokens (`Mail.Html`) naming the template and its context.
- Redirect targets and the `print` of a swallowed exception: only which outcome a view reaches is modelled (`Views.ViewResult`).
- The mail backend: a send is an append to the outbox or a raise, chosen by a parameter.
- The scheduler runtime: starting, stopping, cron firing times, `max_instances` enforcement and `KeyboardInterrupt`. Only the id-keyed job store is modelled. The scheduler writing execution records is not modelled either.
- The exact age boundary of the library's `delete_old_job_executions` is not part of this model. It is the parameter `Scheduler.Boundary`.
- The wall clock and time zones: `now` is an integer parameter and time is integer seconds.
- Attaching categories to a post is not modelled. In Django, `post_add` is sent inside the attachment's own transaction, so a raise from the fan-out rolls the attachment back, while mails already sent stay sent.
- An m2m change made from the category side, where the signal's instance is a category and not a post, is not modelled.
- The category page for an anonymous visitor in PostCategoryView is not modelled. That check reads the visitor's email.
- The subscriber list shown on the category page is rendering only.
