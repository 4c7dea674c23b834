/** The mail transport as the dispatcher sees it. A message is handed to the
    transport, which either delivers it (it is appended to the outbox) or
    raises. Which of the two happens is not under the dispatcher's control, so
    every send takes its outcome `ok` as a parameter and the contracts hold for
    every outcome. Rendering is not modelled: an HTML alternative body is a
    token naming the template and its context. */
module Mail {
  import opened Domain

  datatype Html =
    | SubscribedPage(category: CategoryId, user: UserId)   // mail/subscribed.html
    | NewPostPage(category: CategoryId, post: PostId)      // mail/new_post.html

  datatype Message = Message(subject: string, text: string, html: Option<Html>,
                             sender: string, to: seq<string>)

  /** Django's EmailMessage.send drops the empty addresses from the recipient
      list and returns without contacting the backend when none is left (an
      assumption about the mail library): such a message is neither
      delivered nor able to fail. */
  predicate Attempted(m: Message) {
    exists k | 0 <= k < |m.to| :: m.to[k] != ""
  }

  /** A send raises when the transport is contacted and fails. */
  predicate Raises(m: Message, ok: bool) {
    Attempted(m) && !ok
  }

  /** The outbox after one send with transport outcome `ok`. */
  function AfterSend(outbox: seq<Message>, m: Message, ok: bool): seq<Message> {
    if Attempted(m) && ok then outbox + [m] else outbox
  }

  /** The result of a batch of sends: what was delivered, and whether a send
      raised (which ends the batch). */
  datatype Run = Run(delivered: seq<Message>, raised: bool)

  /** Slot `k` of a batch holds a message whose send raises. */
  predicate FailsAt(mails: seq<Option<Message>>, oks: seq<bool>, k: int)
    requires |oks| == |mails|
  {
    0 <= k < |mails| && mails[k].Some? && Raises(mails[k].value, oks[k])
  }

  /** Sends the present messages of `mails` in order, slot k with transport
      outcome oks[k], with no exception handler around the sends: once a send
      raises, the remaining slots are not reached. A `None` slot sends nothing. */
  function SendAll(mails: seq<Option<Message>>, oks: seq<bool>): (r: Run)
    requires |oks| == |mails|
    ensures |r.delivered| <= |mails|
    ensures r.raised ==> exists k | 0 <= k < |mails| :: FailsAt(mails, oks, k)
    decreases |mails|
  {
    if mails == [] then Run([], false)
    else
      var n := |mails| - 1;
      var prev := SendAll(mails[..n], oks[..n]);
      assert forall k | 0 <= k < n :: FailsAt(mails[..n], oks[..n], k) == FailsAt(mails, oks, k);
      if prev.raised then prev
      else match mails[n]
        case None => prev
        case Some(m) =>
          assert Raises(m, oks[n]) ==> FailsAt(mails, oks, n);
          Run(AfterSend(prev.delivered, m, oks[n]), Raises(m, oks[n]))
  }

  /** Reference definition, part one: the first slot whose send raises, or
      |mails| when none does. */
  function FirstFailure(mails: seq<Option<Message>>, oks: seq<bool>): (k: nat)
    requires |oks| == |mails|
    ensures k <= |mails|
    ensures forall j | 0 <= j < k :: !FailsAt(mails, oks, j)
    ensures k < |mails| ==> FailsAt(mails, oks, k)
    decreases |mails|
  {
    if mails == [] then 0
    else if FailsAt(mails, oks, 0) then 0
    else
      var k' := FirstFailure(mails[1..], oks[1..]);
      assert forall j | 1 <= j <= |mails| :: FailsAt(mails, oks, j) == FailsAt(mails[1..], oks[1..], j - 1);
      1 + k'
  }

  /** Reference definition, part two: the messages of `mails` that the
      transport is contacted for, in slot order. */
  function Attempts(mails: seq<Option<Message>>): (r: seq<Message>)
    ensures |r| <= |mails|
    ensures forall m | m in r :: Attempted(m) && Some(m) in mails
    decreases |mails|
  {
    if mails == [] then []
    else
      var n := |mails| - 1;
      var prev := Attempts(mails[..n]);
      assert forall m | Some(m) in mails[..n] :: Some(m) in mails;
      if mails[n].Some? && Attempted(mails[n].value) then prev + [mails[n].value] else prev
  }

  /** The first failure of a prefix is the first failure of the whole batch,
      cut at the prefix's length. */
  lemma FirstFailureOfPrefix(mails: seq<Option<Message>>, oks: seq<bool>, n: nat)
    requires |oks| == |mails| && n <= |mails|
    ensures FirstFailure(mails[..n], oks[..n]) ==
            if FirstFailure(mails, oks) < n then FirstFailure(mails, oks) else n
  {
    var k, k' := FirstFailure(mails, oks), FirstFailure(mails[..n], oks[..n]);
    assert forall j | 0 <= j < n :: FailsAt(mails[..n], oks[..n], j) == FailsAt(mails, oks, j);
    if k < n {
      assert FailsAt(mails[..n], oks[..n], k);
      assert !FailsAt(mails, oks, k') ==> k' >= n;
    }
  }

  /** The batch delivers exactly the attempted messages before the first
      failing slot, and raises iff some slot fails. */
  lemma {:induction false} SendAllDeliversUpToFirstFailure(mails: seq<Option<Message>>, oks: seq<bool>)
    requires |oks| == |mails|
    ensures SendAll(mails, oks) ==
            Run(Attempts(mails[..FirstFailure(mails, oks)]), FirstFailure(mails, oks) < |mails|)
    decreases |mails|
  {
    if mails != [] {
      var n := |mails| - 1;
      SendAllDeliversUpToFirstFailure(mails[..n], oks[..n]);
      FirstFailureOfPrefix(mails, oks, n);
      var k := FirstFailure(mails, oks);
      if k < n {
        assert mails[..n][..k] == mails[..k];
      } else {
        assert mails[..n][..n] == mails[..n];
        assert mails[..|mails|] == mails;
        assert mails[..n + 1] == mails;
        if FailsAt(mails, oks, n) {
          assert k == n;
        } else {
          assert k == n + 1;
          assert Attempts(mails) == Attempts(mails[..n]) +
            (if mails[n].Some? && Attempted(mails[n].value) then [mails[n].value] else []);
        }
      }
    }
  }

  /** Once a prefix of the batch has raised, the later slots change nothing. */
  lemma SendAllStopsAfterRaise(mails: seq<Option<Message>>, oks: seq<bool>, i: nat)
    requires |oks| == |mails| && i <= |mails|
    requires SendAll(mails[..i], oks[..i]).raised
    ensures SendAll(mails, oks) == SendAll(mails[..i], oks[..i])
  {
    SendAllDeliversUpToFirstFailure(mails, oks);
    SendAllDeliversUpToFirstFailure(mails[..i], oks[..i]);
    FirstFailureOfPrefix(mails, oks, i);
    var k := FirstFailure(mails, oks);
    assert mails[..i][..k] == mails[..k];
  }

  /** When every send succeeds, every attempted message is delivered, in
      order, and nothing raises. */
  lemma SendAllWithoutFailures(mails: seq<Option<Message>>, oks: seq<bool>)
    requires |oks| == |mails|
    requires forall k | 0 <= k < |oks| :: oks[k]
    ensures SendAll(mails, oks) == Run(Attempts(mails), false)
  {
    SendAllDeliversUpToFirstFailure(mails, oks);
    var k := FirstFailure(mails, oks);
    assert !FailsAt(mails, oks, k);
    assert mails[..|mails|] == mails;
  }

  /** When slot k raises after every earlier send succeeded, exactly the
      attempted mails before slot k are delivered, and the batch raises. */
  lemma SendAllRaisesAtFirstFailingSlot(mails: seq<Option<Message>>, oks: seq<bool>, k: nat)
    requires |oks| == |mails| && k < |mails|
    requires forall j | 0 <= j < k :: oks[j]
    requires FailsAt(mails, oks, k)
    ensures SendAll(mails, oks) == Run(Attempts(mails[..k]), true)
  {
    SendAllDeliversUpToFirstFailure(mails, oks);
    assert forall j | 0 <= j < k :: !FailsAt(mails, oks, j);
  }

  /** Each slot contributes at most one delivered message, and every delivered
      message is one of the batch's messages that the transport was contacted
      for. */
  lemma SendAllDeliversFromSlots(mails: seq<Option<Message>>, oks: seq<bool>)
    requires |oks| == |mails|
    ensures |SendAll(mails, oks).delivered| <= |mails|
    ensures forall m | m in SendAll(mails, oks).delivered :: Attempted(m) && Some(m) in mails
  {
    SendAllDeliversUpToFirstFailure(mails, oks);
    var k := FirstFailure(mails, oks);
    assert forall m | Some(m) in mails[..k] :: Some(m) in mails;
  }

  /** A batch none of whose messages reaches the transport delivers nothing
      and never raises, whatever the transport outcomes. */
  lemma {:induction false} SendAllWithoutAttempts(mails: seq<Option<Message>>, oks: seq<bool>)
    requires |oks| == |mails|
    requires forall k | 0 <= k < |mails| && mails[k].Some? :: !Attempted(mails[k].value)
    ensures SendAll(mails, oks) == Run([], false)
    decreases |mails|
  {
    if mails != [] {
      var n := |mails| - 1;
      assert forall k | 0 <= k < n :: mails[..n][k] == mails[k];
      SendAllWithoutAttempts(mails[..n], oks[..n]);
    }
  }
}
