/** news/management/commands/runapscheduler.py: the weekly digest job, the
    pruning of the scheduler's execution history, and the registration of both
    jobs in the scheduler's id-keyed job store. Time is integer seconds and
    the current time `now` is a parameter. */
module Scheduler {
  import opened Domain
  import opened Mail
  import opened Db

  /** timedelta(weeks=1), in seconds. */
  const Week: int := 7 * 24 * 60 * 60

  /** The default `max_age` of delete_old_job_executions, in seconds. */
  const DefaultMaxAge: int := 604_800

  /** The start of the digest window: one week before `now`. */
  function WindowStart(now: int): (start: int)
    ensures now - start == 604_800
  {
    now - Week
  }

  // ---------------------------------------------------------------------------
  // Selecting the posts of a digest

  /** A post qualifies for a digest over `cats` when one of its categories is
      in `cats` and it was created at or after `start`. */
  predicate Selected(p: Post, cats: set<CategoryId>, start: int) {
    (exists k | 0 <= k < |p.categories| :: p.categories[k] in cats) && p.dateCreation >= start
  }

  /** How many of the entries of `cs` are in `cats`. */
  function MatchCount(cs: seq<CategoryId>, cats: set<CategoryId>): (n: nat)
    ensures n <= |cs|
    ensures n > 0 <==> exists k | 0 <= k < |cs| :: cs[k] in cats
  {
    if cs == [] then 0
    else
      var rest := MatchCount(cs[1..], cats);
      assert forall k | 1 <= k < |cs| :: cs[k] == cs[1..][k - 1];
      (if cs[0] in cats then 1 else 0) + rest
  }

  function Repeat(p: Post, n: nat): (r: seq<Post>)
    ensures |r| == n && forall k | 0 <= k < n :: r[k] == p
  {
    if n == 0 then [] else [p] + Repeat(p, n - 1)
  }

  /** The rows of `Post.objects.filter(category__in=cats, dateCreation__gte=start)`.
      The filter joins each post with its categories and is not made
      distinct, so a post comes once per category entry that is in `cats`. */
  function Rows(posts: seq<Post>, cats: set<CategoryId>, start: int): (r: seq<Post>)
    ensures forall k | 0 <= k < |r| :: r[k] in posts && Selected(r[k], cats, start)
  {
    if posts == [] then []
    else
      assert forall q | q in posts[1..] :: q in posts;
      (if posts[0].dateCreation >= start then Repeat(posts[0], MatchCount(posts[0].categories, cats)) else [])
      + Rows(posts[1..], cats, start)
  }

  /** A post is among the rows exactly when it is a post that qualifies. */
  lemma {:induction false} RowsAreTheSelectedPosts(posts: seq<Post>, cats: set<CategoryId>, start: int, p: Post)
    ensures p in Rows(posts, cats, start) <==> p in posts && Selected(p, cats, start)
  {
    if posts != [] {
      RowsAreTheSelectedPosts(posts[1..], cats, start, p);
      var head := if posts[0].dateCreation >= start then Repeat(posts[0], MatchCount(posts[0].categories, cats)) else [];
      assert Rows(posts, cats, start) == head + Rows(posts[1..], cats, start);
      assert p in head <==> p == posts[0] && Selected(p, cats, start) by {
        if p in head {
          var k :| 0 <= k < |head| && head[k] == p;
        }
        if p == posts[0] && Selected(p, cats, start) {
          assert head[0] == p;
        }
      }
      assert p in posts <==> p == posts[0] || p in posts[1..];
    }
  }

  /** A post is listed once for every one of its category entries that the
      subscription covers, times the number of times it is stored. */
  lemma {:induction false} RowsRepeatPerMatchingCategory(posts: seq<Post>, cats: set<CategoryId>, start: int, p: Post)
    ensures multiset(Rows(posts, cats, start))[p] ==
            if p.dateCreation >= start then multiset(posts)[p] * MatchCount(p.categories, cats) else 0
  {
    if posts != [] {
      RowsRepeatPerMatchingCategory(posts[1..], cats, start, p);
      RowsOfFirstPost(posts, cats, start, p);
      if p.dateCreation >= start && p == posts[0] {
        MulSucc(multiset(posts[1..])[p], MatchCount(p.categories, cats));
      }
    }
  }

  /** How often `p` is counted in the rows and among the posts, split into
      the first post and the rest. */
  lemma RowsOfFirstPost(posts: seq<Post>, cats: set<CategoryId>, start: int, p: Post)
    requires posts != []
    ensures multiset(Rows(posts, cats, start))[p] ==
            (if p == posts[0] && p.dateCreation >= start then MatchCount(p.categories, cats) else 0)
            + multiset(Rows(posts[1..], cats, start))[p]
    ensures multiset(posts)[p] == (if p == posts[0] then 1 else 0) + multiset(posts[1..])[p]
  {
    var n := MatchCount(posts[0].categories, cats);
    var head := if posts[0].dateCreation >= start then Repeat(posts[0], n) else [];
    assert Rows(posts, cats, start) == head + Rows(posts[1..], cats, start);
    assert multiset(Rows(posts, cats, start))[p] == multiset(head)[p] + multiset(Rows(posts[1..], cats, start))[p];
    RepeatCount(posts[0], n, p);
    assert posts == [posts[0]] + posts[1..];
  }

  lemma MulSucc(m: nat, n: nat)
    ensures (1 + m) * n == n + m * n
  {
  }

  lemma {:induction false} RepeatCount(q: Post, n: nat, p: Post)
    ensures multiset(Repeat(q, n))[p] == if p == q then n else 0
  {
    if n > 0 {
      RepeatCount(q, n - 1, p);
      assert Repeat(q, n) == [q] + Repeat(q, n - 1);
    }
  }

  /** Category Tech (1) has two posts of the last week, Sports (2) one: a
      subscription to Tech lists exactly the two Tech posts. */
  lemma TechDigestExample(now: int)
    ensures var tech1 := Post(1, "A", "/news/1", [1], now - 100);
            var tech2 := Post(2, "B", "/news/2", [1], now - 200);
            var sports := Post(3, "C", "/news/3", [2], now - 300);
            Rows([tech1, sports, tech2], {1}, WindowStart(now)) == [tech1, tech2]
  {
    var tech1 := Post(1, "A", "/news/1", [1], now - 100);
    var tech2 := Post(2, "B", "/news/2", [1], now - 200);
    var sports := Post(3, "C", "/news/3", [2], now - 300);
    var start := WindowStart(now);
    assert [1][1..] == [] && [2][1..] == [];
    assert MatchCount([1], {1}) == 1 && MatchCount([2], {1}) == 0;
    assert Repeat(tech1, 1) == [tech1] && Repeat(tech2, 1) == [tech2];
    assert [tech2][1..] == [];
    assert Rows([tech2], {1}, start) == [tech2];
    assert [sports, tech2][1..] == [tech2];
    assert Rows([sports, tech2], {1}, start) == [tech2];
    assert [tech1, sports, tech2][1..] == [sports, tech2];
  }

  // ---------------------------------------------------------------------------
  // The text of a digest

  function ArticleLine(p: Post): string {
    p.title + ": " + p.url
  }

  function ArticleLines(rows: seq<Post>): (lines: seq<string>)
    ensures |lines| == |rows|
  {
    seq(|rows|, k requires 0 <= k < |rows| => ArticleLine(rows[k]))
  }

  /** `"\n".join(lines)`: the text starts with the first line, and when no
      line holds a line break it holds exactly one between each two lines. */
  function JoinLines(lines: seq<string>): (s: string)
    ensures lines != [] ==> lines[0] <= s
    ensures lines != [] && (forall k | 0 <= k < |lines| :: '\n' !in lines[k]) ==>
            multiset(s)['\n'] == |lines| - 1
  {
    if lines == [] then ""
    else if |lines| == 1 then lines[0]
    else lines[0] + "\n" + JoinLines(lines[1..])
  }

  /** `s.split("\n")`: the inverse of JoinLines. */
  function SplitLines(s: string): (r: seq<string>)
    ensures |r| >= 1
  {
    if s == [] then [""]
    else
      var rest := SplitLines(s[1..]);
      if s[0] == '\n' then [""] + rest else [[s[0]] + rest[0]] + rest[1..]
  }

  lemma {:induction false} SplitLinesAfterLine(l: string, t: string)
    requires '\n' !in l
    ensures SplitLines(l + t) == [l + SplitLines(t)[0]] + SplitLines(t)[1..]
  {
    if l != [] {
      SplitLinesAfterLine(l[1..], t);
      assert (l + t)[0] == l[0] && (l + t)[1..] == l[1..] + t;
      assert [l[0]] + (l[1..] + SplitLines(t)[0]) == l + SplitLines(t)[0];
    } else {
      var r := SplitLines(t);
      assert l + t == t && l + r[0] == r[0];
      assert [r[0]] + r[1..] == r;
    }
  }

  /** Joining lines that hold no line break and splitting the text again
      gives back the lines. */
  lemma {:induction false} SplitUndoesJoin(lines: seq<string>)
    requires |lines| >= 1
    requires forall k | 0 <= k < |lines| :: '\n' !in lines[k]
    ensures SplitLines(JoinLines(lines)) == lines
  {
    if |lines| == 1 {
      SplitLinesAfterLine(lines[0], "");
      assert lines[0] + "" == lines[0];
    } else {
      SplitUndoesJoin(lines[1..]);
      var t := "\n" + JoinLines(lines[1..]);
      assert lines[0] + "\n" + JoinLines(lines[1..]) == lines[0] + t;
      SplitLinesAfterLine(lines[0], t);
      assert t[0] == '\n' && t[1..] == JoinLines(lines[1..]);
      assert SplitLines(t) == [""] + lines[1..];
      assert lines[0] + "" == lines[0];
    }
  }

  function DigestHeader(username: string): string {
    "Привет, " + username + "!\n\nНовые статьи:\n"
  }

  /** The digest text: the greeting, followed directly by the first article. */
  function DigestBody(username: string, rows: seq<Post>): (body: string)
    ensures DigestHeader(username) <= body
    ensures rows != [] ==> DigestHeader(username) + ArticleLine(rows[0]) <= body
  {
    DigestHeader(username) + JoinLines(ArticleLines(rows))
  }

  /** After its greeting, a digest holds one "title: url" line per row, in
      row order (when titles and urls hold no line break). */
  lemma DigestBodyListsEachRow(username: string, rows: seq<Post>)
    requires rows != []
    requires forall k | 0 <= k < |rows| :: '\n' !in rows[k].title && '\n' !in rows[k].url
    ensures var body := DigestBody(username, rows);
            var h := |DigestHeader(username)|;
            h <= |body| && SplitLines(body[h..]) == ArticleLines(rows)
  {
    var lines := ArticleLines(rows);
    forall k | 0 <= k < |lines| ensures '\n' !in lines[k] {
      assert lines[k] == rows[k].title + ": " + rows[k].url;
    }
    SplitUndoesJoin(lines);
    var body := DigestBody(username, rows);
    assert body[|DigestHeader(username)|..] == JoinLines(lines);
  }

  // ---------------------------------------------------------------------------
  // The weekly digest job

  const DigestSubject: string := "Список новых статей"
  const DigestSender: string := "nickolya212008@yandex.ru"
  /** The recipient list as written: one empty address, not the user's. */
  const DigestRecipients: seq<string> := [""]

  /** The mail my_job composes for one subscription, if any. Its only address
      is empty, so the transport is never contacted for it. */
  function DigestMail(sub: Subscription, posts: seq<Post>, users: map<UserId, User>, now: int): (r: Option<Message>)
    requires sub.user in users
    ensures r.Some? ==> && r.value.subject == DigestSubject && r.value.sender == DigestSender
                        && r.value.to == DigestRecipients && !Attempted(r.value)
  {
    var rows := Rows(posts, sub.categories, WindowStart(now));
    if rows == [] then None
    else Some(Message(DigestSubject, DigestBody(users[sub.user].username, rows), None,
                      DigestSender, DigestRecipients))
  }

  /** One slot per subscription, in subscription order. */
  function DigestMails(subs: seq<Subscription>, posts: seq<Post>, users: map<UserId, User>, now: int)
    : (mails: seq<Option<Message>>)
    requires forall k | 0 <= k < |subs| :: subs[k].user in users
    ensures |mails| == |subs|
  {
    seq(|subs|, k requires 0 <= k < |subs| => DigestMail(subs[k], posts, users, now))
  }

  /** A subscription gets a digest iff one of the posts has a subscribed
      category and was created no earlier than 604 800 seconds before now. */
  lemma DigestSentIffRecentPostInCategories(sub: Subscription, posts: seq<Post>,
                                            users: map<UserId, User>, now: int)
    requires sub.user in users
    ensures DigestMail(sub, posts, users, now).Some? <==>
            exists p | p in posts :: Selected(p, sub.categories, now - 604_800)
  {
    var rows := Rows(posts, sub.categories, WindowStart(now));
    if rows != [] {
      RowsAreTheSelectedPosts(posts, sub.categories, WindowStart(now), rows[0]);
    } else {
      forall p | p in posts ensures !Selected(p, sub.categories, now - 604_800) {
        RowsAreTheSelectedPosts(posts, sub.categories, WindowStart(now), p);
      }
    }
  }

  /** As written, a digest run delivers nothing and cannot raise, whatever
      the transport does: every digest it composes has only the empty
      address, which Django drops before contacting the backend. */
  lemma DigestRunSendsNothing(subs: seq<Subscription>, posts: seq<Post>, users: map<UserId, User>,
                              now: int, oks: seq<bool>)
    requires forall k | 0 <= k < |subs| :: subs[k].user in users
    requires |oks| == |subs|
    ensures SendAll(DigestMails(subs, posts, users, now), oks) == Run([], false)
  {
    var mails := DigestMails(subs, posts, users, now);
    forall k | 0 <= k < |mails| && mails[k].Some? ensures !Attempted(mails[k].value) {
      assert mails[k] == DigestMail(subs[k], posts, users, now);
    }
    SendAllWithoutAttempts(mails, oks);
  }

  /** my_job: for each subscription, in order, selects the recent posts of its
      categories and, when there are any, mails the digest. No handler
      surrounds send_mail, so a send that raised would end the job
      (`raised`); as written no send reaches the transport, so the outbox is
      left alone and nothing raises. */
  method MyJob(st: Store, now: int, oks: seq<bool>) returns (raised: bool)
    requires st.Valid()
    requires |oks| == |st.subscriptions|
    modifies st`outbox
    ensures var run := SendAll(DigestMails(st.subscriptions, st.posts, st.users, now), oks);
            st.outbox == old(st.outbox) + run.delivered && raised == run.raised
    ensures st.outbox == old(st.outbox) && !raised
  {
    DigestRunSendsNothing(st.subscriptions, st.posts, st.users, now, oks);
    var lastWeekStart := WindowStart(now);
    raised := false;
    var i := 0;
    while i < |st.subscriptions| && !raised
      invariant 0 <= i <= |st.subscriptions|
      invariant st.outbox == old(st.outbox) && !raised
    {
      var subscription := st.subscriptions[i];
      var newArticles := Rows(st.posts, subscription.categories, lastWeekStart);
      if newArticles != [] {
        var message := DigestBody(st.users[subscription.user].username, newArticles);
        var msg := Message(DigestSubject, message, None, DigestSender, DigestRecipients);
        assert Some(msg) == DigestMail(subscription, st.posts, st.users, now);
        raised := st.Send(msg, oks[i]);
      }
      i := i + 1;
    }
  }

  // ---------------------------------------------------------------------------
  // Pruning the execution history

  /** Which side of the age threshold a record exactly `maxAge` seconds old
      falls on; the library that draws the line is not part of this model. */
  datatype Boundary = DeleteAtMaxAge | KeepAtMaxAge

  predicate Expired(r: JobExecution, now: int, maxAge: int, b: Boundary) {
    match b
    case DeleteAtMaxAge => now - r.runTime >= maxAge
    case KeepAtMaxAge => now - r.runTime > maxAge
  }

  /** The execution history after deleting the expired records. */
  function Prune(recs: seq<JobExecution>, now: int, maxAge: int, b: Boundary): (kept: seq<JobExecution>)
    ensures forall r :: r in kept <==> r in recs && !Expired(r, now, maxAge, b)
    ensures |kept| <= |recs|
  {
    if recs == [] then []
    else (if Expired(recs[0], now, maxAge, b) then [] else [recs[0]]) + Prune(recs[1..], now, maxAge, b)
  }

  /** Records that have not expired stay, every copy of them. */
  lemma {:induction false} PruneKeepsEveryYoungRecord(recs: seq<JobExecution>, now: int, maxAge: int,
                                                      b: Boundary, r: JobExecution)
    requires !Expired(r, now, maxAge, b)
    ensures multiset(Prune(recs, now, maxAge, b))[r] == multiset(recs)[r]
  {
    if recs != [] {
      var rest := recs[1..];
      PruneKeepsEveryYoungRecord(rest, now, maxAge, b, r);
      var head := if Expired(recs[0], now, maxAge, b) then [] else [recs[0]];
      assert Prune(recs, now, maxAge, b) == head + Prune(rest, now, maxAge, b);
      assert multiset(Prune(recs, now, maxAge, b))[r] == multiset(head)[r] + multiset(Prune(rest, now, maxAge, b))[r];
      assert recs == [recs[0]] + rest;
      assert multiset(recs)[r] == multiset([recs[0]])[r] + multiset(rest)[r];
      if recs[0] == r {
        assert head == [r];
      }
    }
  }

  /** A history holding no expired record is left exactly as it is. */
  lemma {:induction false} PruneWithoutExpired(recs: seq<JobExecution>, now: int, maxAge: int, b: Boundary)
    requires forall k | 0 <= k < |recs| :: !Expired(recs[k], now, maxAge, b)
    ensures Prune(recs, now, maxAge, b) == recs
  {
    if recs != [] {
      PruneWithoutExpired(recs[1..], now, maxAge, b);
    }
  }

  /** A second prune at the same time changes nothing. */
  lemma PruneIdempotent(recs: seq<JobExecution>, now: int, maxAge: int, b: Boundary)
    ensures Prune(Prune(recs, now, maxAge, b), now, maxAge, b) == Prune(recs, now, maxAge, b)
  {
    var kept := Prune(recs, now, maxAge, b);
    forall k | 0 <= k < |kept| ensures !Expired(kept[k], now, maxAge, b) {
      assert kept[k] in kept;
    }
    PruneWithoutExpired(kept, now, maxAge, b);
  }

  /** A record exactly `maxAge` seconds old survives iff the boundary keeps
      it; older ones never survive, younger ones always do. */
  lemma PruneBoundary(recs: seq<JobExecution>, now: int, maxAge: int, b: Boundary, r: JobExecution)
    requires r in recs
    ensures now - r.runTime == maxAge ==> (r in Prune(recs, now, maxAge, b) <==> b == KeepAtMaxAge)
    ensures now - r.runTime > maxAge ==> r !in Prune(recs, now, maxAge, b)
    ensures now - r.runTime < maxAge ==> r in Prune(recs, now, maxAge, b)
  {
  }

  /** delete_old_job_executions: drops the history older than `maxAge`
      seconds (604 800 by default). */
  method DeleteOldJobExecutions(st: Store, now: int, b: Boundary, maxAge: int := DefaultMaxAge)
    modifies st`jobExecutions
    ensures st.jobExecutions == Prune(old(st.jobExecutions), now, maxAge, b)
  {
    st.jobExecutions := Prune(st.jobExecutions, now, maxAge, b);
  }

  // ---------------------------------------------------------------------------
  // Registering the jobs

  const MyJobId: string := "my_job"
  const DeleteJobId: string := "delete_old_job_executions"
  const MyJobEntry: Job := Job(MyJobFunc, Cron(None, None, None, Some("*/10")), 1)
  const DeleteJobEntry: Job := Job(DeleteOldJobExecutionsFunc, Cron(Some("mon"), Some("00"), Some("00"), None), 1)

  /** The job store after `Command.handle` has added both jobs with
      replace_existing=True. */
  function Registered(jobs: map<string, Job>): (r: map<string, Job>)
    ensures r.Keys == jobs.Keys + {MyJobId, DeleteJobId}
    ensures r[MyJobId] == MyJobEntry && r[DeleteJobId] == DeleteJobEntry
    ensures forall id | id in jobs && id != MyJobId && id != DeleteJobId :: r[id] == jobs[id]
  {
    assert MyJobId != DeleteJobId;
    jobs[MyJobId := MyJobEntry][DeleteJobId := DeleteJobEntry]
  }

  /** Registration is keyed by id: it sets exactly the two ids, each to a job
      allowing one instance at a time, leaves every other id alone, and
      running it again changes nothing; from a store holding no other jobs it
      leaves exactly two entries. */
  lemma RegistrationReplacesById(jobs: map<string, Job>)
    ensures Registered(jobs).Keys == jobs.Keys + {MyJobId, DeleteJobId}
    ensures Registered(jobs)[MyJobId] == MyJobEntry && Registered(jobs)[DeleteJobId] == DeleteJobEntry
    ensures Registered(jobs)[MyJobId].maxInstances == 1 && Registered(jobs)[DeleteJobId].maxInstances == 1
    ensures forall id | id in jobs && id != MyJobId && id != DeleteJobId :: Registered(jobs)[id] == jobs[id]
    ensures Registered(Registered(jobs)) == Registered(jobs)
    ensures jobs.Keys <= {MyJobId, DeleteJobId} ==> |Registered(jobs)| == 2
  {
    assert MyJobId != DeleteJobId;
    if jobs.Keys <= {MyJobId, DeleteJobId} {
      assert Registered(jobs).Keys == {MyJobId, DeleteJobId};
    }
  }

  /** scheduler.add_job: stores `job` under `id`, replacing an entry with that
      id when `replaceExisting` holds and refusing (`conflict`) otherwise. */
  method AddJob(st: Store, id: string, job: Job, replaceExisting: bool) returns (conflict: bool)
    modifies st`jobs
    ensures conflict <==> id in old(st.jobs) && !replaceExisting
    ensures st.jobs == if conflict then old(st.jobs) else old(st.jobs)[id := job]
  {
    conflict := id in st.jobs && !replaceExisting;
    if !conflict {
      st.jobs := st.jobs[id := job];
    }
  }

  /** Command.handle, up to starting the scheduler: registers my_job and
      delete_old_job_executions. */
  method Handle(st: Store)
    modifies st`jobs
    ensures st.jobs == Registered(old(st.jobs))
  {
    var _ := AddJob(st, MyJobId, MyJobEntry, true);
    var _ := AddJob(st, DeleteJobId, DeleteJobEntry, true);
  }
}
