/** news/signals.py: the receiver that turns a change of a post's categories
    into the new-post fan-out. */
module Signals {
  import opened Domain
  import opened Mail
  import opened Db
  import opened Views

  /** The actions Django reports through the m2m_changed signal. */
  datatype M2MAction = PreAdd | PostAdd | PreRemove | PostRemove | PreClear | PostClear

  /** The many-to-many relation (named by its through model) whose change is
      being reported. */
  datatype Relation = PostCategory | OtherRelation(name: string)

  /** notify_subscribers is connected for sender PostCategory only, and acts
      only on the post_add action. */
  predicate Dispatches(sender: Relation, action: M2MAction): (b: bool)
    ensures b <==> sender == PostCategory && action !in {PreAdd, PreRemove, PostRemove, PreClear, PostClear}
  {
    sender == PostCategory && action == PostAdd
  }

  /** Of the six actions on PostCategory exactly post_add notifies; no action
      on any other relation does. */
  lemma OnlyPostAddOnPostCategoryNotifies(sender: Relation, action: M2MAction)
    ensures action in {PreAdd, PreRemove, PostRemove, PreClear, PostClear} ==> !Dispatches(sender, action)
    ensures sender.OtherRelation? ==> !Dispatches(sender, action)
  {
  }

  /** notify_subscribers: on post_add, runs new_post_subscriptions once for the
      same post, letting its exception (`raised`) propagate; on any other
      action it does nothing. */
  method NotifySubscribers(st: Store, post: Post, action: M2MAction, oks: seq<bool>)
    returns (raised: bool)
    requires st.Valid() && post in st.posts
    requires |oks| == |post.categories|
    modifies st`outbox
    ensures CategoriesKnown(post, st.categories)
    ensures action == PostAdd ==>
      var run := SendAll(NewPostMails(post, st.categories, st.users, st.defaultFromEmail), oks);
      st.outbox == old(st.outbox) + run.delivered && raised == run.raised
    ensures action != PostAdd ==> st.outbox == old(st.outbox) && !raised
  {
    raised := false;
    if action == PostAdd {
      raised := NewPostSubscriptions(st, post, oks);
    }
  }

  /** Sending m2m_changed for a change of `sender`: only receivers connected
      for that sender run, so notify_subscribers sees PostCategory changes and
      nothing else. */
  method M2MChanged(st: Store, sender: Relation, post: Post, action: M2MAction, oks: seq<bool>)
    returns (raised: bool)
    requires st.Valid() && post in st.posts
    requires |oks| == |post.categories|
    modifies st`outbox
    ensures CategoriesKnown(post, st.categories)
    ensures Dispatches(sender, action) ==>
      var run := SendAll(NewPostMails(post, st.categories, st.users, st.defaultFromEmail), oks);
      st.outbox == old(st.outbox) + run.delivered && raised == run.raised
    ensures !Dispatches(sender, action) ==> st.outbox == old(st.outbox) && !raised
  {
    raised := false;
    if sender == PostCategory {
      raised := NotifySubscribers(st, post, action, oks);
    }
  }
}
