/** The state the dispatcher works on: the rows of the database it reads and
    writes (users, categories with their subscribers, posts, digest
    subscriptions, the scheduler's job store and execution history) and the
    outbox of the mail transport. */
module Db {
  import opened Domain
  import opened Mail

  datatype JobFunc = MyJobFunc | DeleteOldJobExecutionsFunc

  /** The fields given to a cron trigger; `None` for a field left at its default. */
  datatype Trigger = Cron(dayOfWeek: Option<string>, hour: Option<string>,
                          minute: Option<string>, second: Option<string>)

  datatype Job = Job(func: JobFunc, trigger: Trigger, maxInstances: nat)

  class Store {
    var users: map<UserId, User>
    var categories: map<CategoryId, Category>
    var posts: seq<Post>
    var subscriptions: seq<Subscription>
    var jobExecutions: seq<JobExecution>
    var jobs: map<string, Job>
    var outbox: seq<Message>
    /** The site's DEFAULT_FROM_EMAIL setting. */
    const defaultFromEmail: string

    /** The database's constraints: subscriber sets hold no user twice, and
        every reference points at an existing row. */
    ghost predicate Valid()
      reads this
    {
      && (forall c | c in categories :: NoDuplicates(categories[c].subscribers))
      && SubscribersKnown(categories, users)
      && (forall p | p in posts :: CategoriesKnown(p, categories))
      && (forall k | 0 <= k < |subscriptions| :: subscriptions[k].user in users)
    }

    constructor (defaultFromEmail: string)
      ensures Valid()
      ensures this.defaultFromEmail == defaultFromEmail
      ensures users == map[] && categories == map[] && posts == [] && subscriptions == []
      ensures jobExecutions == [] && jobs == map[] && outbox == []
    {
      this.defaultFromEmail := defaultFromEmail;
      users, categories, posts, subscriptions := map[], map[], [], [];
      jobExecutions, jobs, outbox := [], map[], [];
    }

    /** Hands `m` to the transport, whose outcome is `ok`; `raised` reports
        that the send raised an exception. */
    method Send(m: Message, ok: bool) returns (raised: bool)
      modifies this`outbox
      ensures outbox == AfterSend(old(outbox), m, ok)
      ensures raised == Raises(m, ok)
    {
      raised := Raises(m, ok);
      if Attempted(m) && ok {
        outbox := outbox + [m];
      }
    }
  }
}
