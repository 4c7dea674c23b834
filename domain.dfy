/** Entities of the news site that the notification dispatcher reads: users,
    categories with their subscribers, posts, weekly-digest subscriptions and
    the scheduler's job-execution history. */
module Domain {

  type UserId = int
  type CategoryId = int
  type PostId = int

  datatype Option<+T> = None | Some(value: T)

  datatype User = User(email: string, username: string)

  /** `name` is what the category prints as; `subscribers` is the
      many-to-many relation to users, in the order the database returns it. */
  datatype Category = Category(name: string, subscribers: seq<UserId>)

  /** `url` is the post's absolute URL; `categories` is its many-to-many
      relation to categories, in the order the database returns it. */
  datatype Post = Post(id: PostId, title: string, url: string,
                       categories: seq<CategoryId>, dateCreation: int)

  /** A user's weekly-digest subscription to a set of categories. */
  datatype Subscription = Subscription(user: UserId, categories: set<CategoryId>)

  /** One row of the scheduler's execution history; `runTime` in seconds. */
  datatype JobExecution = JobExecution(jobId: string, runTime: int)

  predicate NoDuplicates<T(==)>(s: seq<T>) {
    forall i, j | 0 <= i < j < |s| :: s[i] != s[j]
  }

  /** Every subscriber of every category is a known user (a foreign key). */
  predicate SubscribersKnown(categories: map<CategoryId, Category>, users: map<UserId, User>) {
    forall c | c in categories :: AllKnown(categories[c].subscribers, users)
  }

  /** Every category a post is tagged with exists (a foreign key). */
  predicate CategoriesKnown(post: Post, categories: map<CategoryId, Category>) {
    forall k | 0 <= k < |post.categories| :: post.categories[k] in categories
  }

  /** Every user id in `ids` is a known user. */
  predicate AllKnown(ids: seq<UserId>, users: map<UserId, User>) {
    forall k | 0 <= k < |ids| :: ids[k] in users
  }
}
