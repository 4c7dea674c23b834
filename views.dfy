/** The subscription views and the new-post fan-out of news/views.py:
    subscribing and unsubscribing a user, the two "is this user subscribed"
    checks of the category pages, the lookup of a category's subscriber
    emails, and the mail sent per category when a post gets categories. */
module Views {
  import opened Domain
  import opened Mail
  import opened Db

  /** Where a view sends the browser (the redirect targets themselves are
      not modelled); `CategoryNotFound` is the uncaught `DoesNotExist` of a
      missing category. */
  datatype ViewResult =
    | LoginRedirect       // @login_required turned an anonymous visitor away
    | CategoryNotFound
    | RedirectToNews      // after a fresh subscription
    | RedirectBack        // already subscribed: back to the referring page
    | RedirectToIndex     // after unsubscribing

  // ---------------------------------------------------------------------------
  // Subscriber lists

  /** The subscriber list after `subscribers.add(user)`: a many-to-many add
      never stores a user twice. */
  function AddSubscriber(subs: seq<UserId>, u: UserId): (r: seq<UserId>)
    ensures forall v :: v in r <==> v in subs || v == u
    ensures NoDuplicates(subs) ==> NoDuplicates(r)
    ensures |subs| <= |r| && r[..|subs|] == subs
  {
    if u in subs then subs else subs + [u]
  }

  /** The subscriber list after `subscribers.remove(user)`: every entry for
      `u` goes, the others keep their order. */
  function RemoveSubscriber(subs: seq<UserId>, u: UserId): (r: seq<UserId>)
    ensures forall v :: v in r <==> v in subs && v != u
    ensures |r| <= |subs|
  {
    if subs == [] then []
    else (if subs[0] == u then [] else [subs[0]]) + RemoveSubscriber(subs[1..], u)
  }

  lemma {:induction false} RemoveAbsentSubscriber(subs: seq<UserId>, u: UserId)
    requires u !in subs
    ensures RemoveSubscriber(subs, u) == subs
  {
    if subs != [] {
      RemoveAbsentSubscriber(subs[1..], u);
    }
  }

  lemma {:induction false} RemoveSubscriberAppend(a: seq<UserId>, b: seq<UserId>, u: UserId)
    ensures RemoveSubscriber(a + b, u) == RemoveSubscriber(a, u) + RemoveSubscriber(b, u)
  {
    if a == [] {
      assert a + b == b;
    } else {
      assert (a + b)[0] == a[0] && (a + b)[1..] == a[1..] + b;
      RemoveSubscriberAppend(a[1..], b, u);
    }
  }

  /** Removing one member of a duplicate-free list shortens it by exactly one
      and keeps it duplicate-free. */
  lemma {:induction false} RemoveOneSubscriber(subs: seq<UserId>, u: UserId)
    requires NoDuplicates(subs) && u in subs
    ensures |RemoveSubscriber(subs, u)| == |subs| - 1
    ensures NoDuplicates(RemoveSubscriber(subs, u))
  {
    if subs[0] == u {
      assert u !in subs[1..];
      RemoveAbsentSubscriber(subs[1..], u);
    } else {
      RemoveOneSubscriber(subs[1..], u);
      var rest := RemoveSubscriber(subs[1..], u);
      assert subs[0] !in rest;
    }
  }

  /** A list whose members all belong to a list of known users is known too. */
  lemma AllKnownOfMembers(a: seq<UserId>, b: seq<UserId>, users: map<UserId, User>)
    requires AllKnown(b, users)
    requires forall v | v in a :: v in b
    ensures AllKnown(a, users)
  {
    forall k | 0 <= k < |a| ensures a[k] in users {
      var x := a[k];
      assert x in a;
      assert x in b;
      var j :| 0 <= j < |b| && b[j] == x;
    }
  }

  /** Unsubscribing undoes a fresh subscription, order included. */
  lemma UnsubscribeUndoesSubscribe(subs: seq<UserId>, u: UserId)
    requires u !in subs
    ensures RemoveSubscriber(AddSubscriber(subs, u), u) == subs
  {
    RemoveSubscriberAppend(subs, [u], u);
    RemoveAbsentSubscriber(subs, u);
    assert RemoveSubscriber([u], u) == [];
  }

  // ---------------------------------------------------------------------------
  // The two membership checks of the category pages

  /** `is_subscribed` of CategoryDetailView: some subscriber has the viewer's
      id. An anonymous viewer has no id and matches nobody. */
  predicate IsSubscribed(subs: seq<UserId>, viewer: Option<UserId>): (b: bool)
    ensures b <==> exists k | 0 <= k < |subs| :: viewer == Some(subs[k])
  {
    viewer.Some? && viewer.value in subs
  }

  /** PostCategoryView puts the category (and with it the subscribe button)
      into the page only when no subscriber has the viewer's email. */
  predicate ExposesCategory(subs: seq<UserId>, users: map<UserId, User>, email: string): (b: bool)
    requires AllKnown(subs, users)
    ensures b <==> forall k | 0 <= k < |subs| :: users[subs[k]].email != email
  {
    assert forall k | 0 <= k < |subs| :: subs[k] in subs;
    assert forall u | u in subs :: exists k | 0 <= k < |subs| :: subs[k] == u;
    !exists u | u in subs :: users[u].email == email
  }

  /** The two checks agree when no two users share an email address. */
  lemma MembershipChecksAgreeOnDistinctEmails(subs: seq<UserId>, users: map<UserId, User>, u: UserId)
    requires AllKnown(subs, users)
    requires u in users
    requires forall v, w | v in users && w in users && v != w :: users[v].email != users[w].email
    ensures ExposesCategory(subs, users, users[u].email) <==> !IsSubscribed(subs, Some(u))
  {
  }

  /** They disagree when a subscriber shares the viewer's email: the viewer is
      not subscribed, yet is not offered the category either. */
  lemma MembershipChecksDifferOnSharedEmail(subs: seq<UserId>, users: map<UserId, User>, v: UserId, w: UserId)
    requires AllKnown(subs, users) && v in users
    requires w in subs && v !in subs && users[w].email == users[v].email
    ensures !IsSubscribed(subs, Some(v)) && !ExposesCategory(subs, users, users[v].email)
  {
  }

  /** An instance of the disagreement: users 1 and 2 share an address and
      only user 1 subscribes. */
  lemma MembershipChecksDiffer()
    ensures var users := map[1 := User("ann@example.org", "ann"), 2 := User("ann@example.org", "bob")];
            !IsSubscribed([1], Some(2)) && !ExposesCategory([1], users, users[2].email)
  {
    var users := map[1 := User("ann@example.org", "ann"), 2 := User("ann@example.org", "bob")];
    assert users[1].email == users[2].email;
  }

  // ---------------------------------------------------------------------------
  // Subscribing and unsubscribing

  function SubscribedMail(pk: CategoryId, name: string, u: UserId, email: string, sender: string): (m: Message)
    ensures m.to == [email]
    ensures Attempted(m) <==> email != ""
  {
    assert [email][0] == email;
    Message(name + " subcription", "", Some(SubscribedPage(pk, u)), sender, [email])
  }

  /** subscribe_to_category: adds the viewer to the category's subscribers
      and, only when they were not subscribed before, mails them a
      confirmation. A failing send is swallowed; the new membership stays. */
  method SubscribeToCategory(st: Store, viewer: Option<UserId>, pk: CategoryId, ok: bool)
    returns (r: ViewResult)
    requires st.Valid()
    requires viewer.Some? ==> viewer.value in st.users
    modifies st`categories, st`outbox
    ensures st.Valid()
    ensures viewer.None? ==>
      r == LoginRedirect && st.categories == old(st.categories) && st.outbox == old(st.outbox)
    ensures viewer.Some? && pk !in old(st.categories) ==>
      r == CategoryNotFound && st.categories == old(st.categories) && st.outbox == old(st.outbox)
    ensures viewer.Some? && pk in old(st.categories) && viewer.value in old(st.categories[pk].subscribers) ==>
      r == RedirectBack && st.categories == old(st.categories) && st.outbox == old(st.outbox)
    ensures viewer.Some? && pk in old(st.categories) && viewer.value !in old(st.categories[pk].subscribers) ==>
      var cat, u := old(st.categories[pk]), viewer.value;
      && r == RedirectToNews
      && st.categories == old(st.categories)[pk := cat.(subscribers := AddSubscriber(cat.subscribers, u))]
      && st.outbox == AfterSend(old(st.outbox), SubscribedMail(pk, cat.name, u, st.users[u].email, st.defaultFromEmail), ok)
  {
    if viewer.None? {
      return LoginRedirect;
    }
    var u := viewer.value;
    if pk !in st.categories {
      return CategoryNotFound;
    }
    var cat := st.categories[pk];
    if u !in cat.subscribers {
      st.categories := st.categories[pk := cat.(subscribers := AddSubscriber(cat.subscribers, u))];
      var msg := SubscribedMail(pk, cat.name, u, st.users[u].email, st.defaultFromEmail);
      var _ := st.Send(msg, ok);
      return RedirectToNews;
    }
    return RedirectBack;
  }

  /** unsubscribe_from_category: removes the viewer from that one category's
      subscribers; a no-op when they are not subscribed. */
  method UnsubscribeFromCategory(st: Store, viewer: Option<UserId>, pk: CategoryId)
    returns (r: ViewResult)
    requires st.Valid()
    modifies st`categories
    ensures st.Valid()
    ensures viewer.None? ==> r == LoginRedirect && st.categories == old(st.categories)
    ensures viewer.Some? && pk !in old(st.categories) ==>
      r == CategoryNotFound && st.categories == old(st.categories)
    ensures viewer.Some? && pk in old(st.categories) ==> r == RedirectToIndex
    ensures viewer.Some? && pk in old(st.categories) && viewer.value !in old(st.categories[pk].subscribers) ==>
      st.categories == old(st.categories)
    ensures viewer.Some? && pk in old(st.categories) && viewer.value in old(st.categories[pk].subscribers) ==>
      var cat := old(st.categories[pk]);
      st.categories == old(st.categories)[pk := cat.(subscribers := RemoveSubscriber(cat.subscribers, viewer.value))]
  {
    if viewer.None? {
      return LoginRedirect;
    }
    var u := viewer.value;
    if pk !in st.categories {
      return CategoryNotFound;
    }
    var cat := st.categories[pk];
    if u in cat.subscribers {
      RemoveOneSubscriber(cat.subscribers, u);
      AllKnownOfMembers(RemoveSubscriber(cat.subscribers, u), cat.subscribers, st.users);
      st.categories := st.categories[pk := cat.(subscribers := RemoveSubscriber(cat.subscribers, u))];
    }
    return RedirectToIndex;
  }

  // ---------------------------------------------------------------------------
  // Subscriber lookup and the new-post fan-out

  /** The email of every subscriber, in subscriber order. */
  function SubscriberEmails(subs: seq<UserId>, users: map<UserId, User>): seq<string>
    requires AllKnown(subs, users)
  {
    seq(|subs|, k requires 0 <= k < |subs| => users[subs[k]].email)
  }

  /** get_subscribers: one email per subscriber, in subscriber order. */
  method GetSubscribers(subs: seq<UserId>, users: map<UserId, User>) returns (emails: seq<string>)
    requires AllKnown(subs, users)
    ensures |emails| == |subs|
    ensures forall k | 0 <= k < |subs| :: emails[k] == users[subs[k]].email
    ensures emails == SubscriberEmails(subs, users)
  {
    emails := [];
    var i := 0;
    while i < |subs|
      invariant 0 <= i <= |subs|
      invariant |emails| == i
      invariant forall k | 0 <= k < i :: emails[k] == users[subs[k]].email
    {
      emails := emails + [users[subs[i]].email];
      i := i + 1;
    }
  }

  function NewPostSubject(name: string): string {
    "Новая публикация в категории \"" + name + "\""
  }

  /** Some subscriber in `subs` has a non-empty email address. */
  predicate HasAddress(subs: seq<UserId>, users: map<UserId, User>)
    requires AllKnown(subs, users)
  {
    exists k | 0 <= k < |subs| :: users[subs[k]].email != ""
  }

  /** The mail announcing `post` to the subscribers of category `c`: one
      address per subscriber, in subscriber order; it reaches the transport
      iff some subscriber has a non-empty address. */
  function NewPostMail(post: Post, c: CategoryId, categories: map<CategoryId, Category>,
                       users: map<UserId, User>, sender: string): (m: Message)
    requires c in categories && SubscribersKnown(categories, users)
    ensures |m.to| == |categories[c].subscribers|
    ensures forall k | 0 <= k < |m.to| :: m.to[k] == users[categories[c].subscribers[k]].email
    ensures m.html == Some(NewPostPage(c, post.id))
    ensures Attempted(m) <==> HasAddress(categories[c].subscribers, users)
  {
    Message(NewPostSubject(categories[c].name), "", Some(NewPostPage(c, post.id)), sender,
            SubscriberEmails(categories[c].subscribers, users))
  }

  /** The mails new_post_subscriptions composes: one per category of the
      post, in the post's category order. */
  function NewPostMails(post: Post, categories: map<CategoryId, Category>,
                        users: map<UserId, User>, sender: string): (mails: seq<Option<Message>>)
    requires CategoriesKnown(post, categories) && SubscribersKnown(categories, users)
    ensures |mails| == |post.categories|
    ensures forall k | 0 <= k < |mails| ::
              mails[k].Some? && mails[k].value.html == Some(NewPostPage(post.categories[k], post.id))
  {
    seq(|post.categories|, k requires 0 <= k < |post.categories| =>
      Some(NewPostMail(post, post.categories[k], categories, users, sender)))
  }

  /** new_post_subscriptions: for each category of the post, in order, mails
      the category's subscribers. No handler surrounds the send, so the first
      send that raises ends the loop and the exception propagates (`raised`). */
  method NewPostSubscriptions(st: Store, post: Post, oks: seq<bool>) returns (raised: bool)
    requires st.Valid() && post in st.posts
    requires |oks| == |post.categories|
    modifies st`outbox
    ensures CategoriesKnown(post, st.categories)
    ensures var run := SendAll(NewPostMails(post, st.categories, st.users, st.defaultFromEmail), oks);
            st.outbox == old(st.outbox) + run.delivered && raised == run.raised
  {
    ghost var mails := NewPostMails(post, st.categories, st.users, st.defaultFromEmail);
    raised := false;
    var i := 0;
    while i < |post.categories| && !raised
      invariant 0 <= i <= |post.categories|
      invariant st.outbox == old(st.outbox) + SendAll(mails[..i], oks[..i]).delivered
      invariant raised == SendAll(mails[..i], oks[..i]).raised
    {
      var c := post.categories[i];
      var category := st.categories[c];
      var emails := GetSubscribers(category.subscribers, st.users);
      var msg := Message(NewPostSubject(category.name), "", Some(NewPostPage(c, post.id)),
                         st.defaultFromEmail, emails);
      assert mails[i] == Some(msg);
      raised := st.Send(msg, oks[i]);
      assert mails[..i + 1][..i] == mails[..i] && oks[..i + 1][..i] == oks[..i];
      i := i + 1;
    }
    if raised {
      SendAllStopsAfterRaise(mails, oks, i);
    } else {
      assert mails[..i] == mails && oks[..i] == oks;
    }
  }

  /** When every send succeeds, exactly the categories with a subscriber who
      has a non-empty address get a mail, in category order, each addressed
      to all of that category's subscribers and naming the category in its
      subject. */
  lemma NewPostFanOutWithoutFailures(post: Post, categories: map<CategoryId, Category>,
                                     users: map<UserId, User>, sender: string, oks: seq<bool>)
    requires CategoriesKnown(post, categories) && SubscribersKnown(categories, users)
    requires |oks| == |post.categories| && forall k | 0 <= k < |oks| :: oks[k]
    ensures var mails := NewPostMails(post, categories, users, sender);
            SendAll(mails, oks) == Run(Attempts(mails), false)
    ensures forall m | m in SendAll(NewPostMails(post, categories, users, sender), oks).delivered ::
              exists j | 0 <= j < |post.categories| ::
                var c := post.categories[j];
                && m.subject == NewPostSubject(categories[c].name)
                && m.to == SubscriberEmails(categories[c].subscribers, users)
                && HasAddress(categories[c].subscribers, users)
  {
    var mails := NewPostMails(post, categories, users, sender);
    SendAllWithoutFailures(mails, oks);
    SendAllDeliversFromSlots(mails, oks);
    forall m | m in SendAll(mails, oks).delivered
      ensures exists j | 0 <= j < |post.categories| ::
                var c := post.categories[j];
                && m.subject == NewPostSubject(categories[c].name)
                && m.to == SubscriberEmails(categories[c].subscribers, users)
                && HasAddress(categories[c].subscribers, users)
    {
      var k :| 0 <= k < |mails| && mails[k] == Some(m);
      var c := post.categories[k];
      assert m == NewPostMail(post, c, categories, users, sender);
    }
  }

  /** When the k-th category's mail reaches the transport and its send raises
      after the earlier ones went through, the mails for the earlier
      categories are all that is delivered: the k-th and later categories get
      nothing. */
  lemma NewPostFailureStopsLaterCategories(post: Post, categories: map<CategoryId, Category>,
                                           users: map<UserId, User>, sender: string,
                                           oks: seq<bool>, k: nat)
    requires CategoriesKnown(post, categories) && SubscribersKnown(categories, users)
    requires |oks| == |post.categories| && k < |oks|
    requires forall j | 0 <= j < k :: oks[j]
    requires !oks[k]
    requires Attempted(NewPostMail(post, post.categories[k], categories, users, sender))
    ensures var mails := NewPostMails(post, categories, users, sender);
            SendAll(mails, oks) == Run(Attempts(mails[..k]), true)
  {
    var mails := NewPostMails(post, categories, users, sender);
    assert mails[k] == Some(NewPostMail(post, post.categories[k], categories, users, sender));
    assert FailsAt(mails, oks, k);
    SendAllRaisesAtFirstFailingSlot(mails, oks, k);
  }

  /** Category "Tech" with subscribers a@x.com and b@x.com; a post "Launch"
      in Tech alone produces exactly one mail, to both of them. */
  lemma TechLaunchExample()
    ensures var users := map[1 := User("a@x.com", "a"), 2 := User("b@x.com", "b"), 3 := User("c@x.com", "c")];
            var categories := map[10 := Category("Tech", [1, 2]), 11 := Category("Sports", [3])];
            var launch := Post(7, "Launch", "/news/7", [10], 0);
            SendAll(NewPostMails(launch, categories, users, "site@x.com"), [true]).delivered ==
              [Message(NewPostSubject("Tech"), "", Some(NewPostPage(10, 7)), "site@x.com", ["a@x.com", "b@x.com"])]
  {
    var users := map[1 := User("a@x.com", "a"), 2 := User("b@x.com", "b"), 3 := User("c@x.com", "c")];
    var categories := map[10 := Category("Tech", [1, 2]), 11 := Category("Sports", [3])];
    var launch := Post(7, "Launch", "/news/7", [10], 0);
    var mails := NewPostMails(launch, categories, users, "site@x.com");
    assert SubscriberEmails([1, 2], users) == ["a@x.com", "b@x.com"];
    assert mails[0].value.to[0] == "a@x.com";
    SendAllWithoutFailures(mails, [true]);
    assert mails[..0] == [];
  }
}
