/** The replies a pool's actor owes its callers: each request accepted is answered once, and
    those that are served are served in the order of their arrival. */
module PoolReplies {
  import opened Basics

  datatype Reason = DialBackoff | DialError | PoolClosed | ContextDone

  datatype Reply = Granted(req: nat, conn: nat) | Refused(req: nat, reason: Reason)

  function Bit(b: bool): nat {
    if b then 1 else 0
  }

  /** Requests granted, in the order of their replies. */
  function GrantedReqs(replies: seq<Reply>): seq<nat> {
    if replies == [] then []
    else
      var last := replies[|replies| - 1];
      GrantedReqs(replies[..|replies| - 1]) + if last.Granted? then [last.req] else []
  }

  /** Requests answered, with multiplicity. */
  function Answered(replies: seq<Reply>): multiset<nat> {
    if replies == [] then multiset{}
    else Answered(replies[..|replies| - 1]) + multiset{replies[|replies| - 1].req}
  }

  lemma ReplyAppended(replies: seq<Reply>, r: Reply)
    ensures GrantedReqs(replies + [r]) == GrantedReqs(replies) + if r.Granted? then [r.req] else []
    ensures Answered(replies + [r]) == Answered(replies) + multiset{r.req}
  {
    assert (replies + [r])[..|replies|] == replies;
  }

  predicate Increasing(s: seq<nat>) {
    forall i, j :: 0 <= i < j < |s| ==> s[i] < s[j]
  }

  /** Requests are numbered as the actor accepts them. Those granted and then those still
      queued are in arrival order, and every accepted request is queued or answered, once. */
  ghost predicate Ordered(granted: seq<nat>, answered: multiset<nat>, waiters: seq<nat>, nextReq: nat) {
    && Increasing(granted + waiters)
    && (forall i :: 0 <= i < |granted + waiters| ==> (granted + waiters)[i] < nextReq)
    && (forall r: nat :: answered[r] + multiset(waiters)[r] == Bit(r < nextReq))
  }

  ghost predicate InOrder(replies: seq<Reply>, waiters: seq<nat>, nextReq: nat) {
    Ordered(GrantedReqs(replies), Answered(replies), waiters, nextReq)
  }

  lemma FrontGranted(g: seq<nat>, a: multiset<nat>, ws: seq<nat>, nextReq: nat)
    requires Ordered(g, a, ws, nextReq) && ws != []
    ensures Ordered(g + [ws[0]], a + multiset{ws[0]}, ws[1..], nextReq)
  {
    assert ws == [ws[0]] + ws[1..];
    assert g + [ws[0]] + ws[1..] == g + ws;
  }

  function Without(s: seq<nat>, k: nat): seq<nat>
    requires k < |s|
  {
    s[..k] + s[k + 1..]
  }

  lemma AnyRefused(g: seq<nat>, a: multiset<nat>, ws: seq<nat>, k: nat, nextReq: nat)
    requires Ordered(g, a, ws, nextReq) && k < |ws|
    ensures Ordered(g, a + multiset{ws[k]}, Without(ws, k), nextReq)
  {
    var before, after := g + ws, g + Without(ws, k);
    assert forall i :: 0 <= i < |after| ==> after[i] == before[if i < |g| + k then i else i + 1];
    assert ws == ws[..k] + ([ws[k]] + ws[k + 1..]);
  }

  lemma NewcomerQueued(g: seq<nat>, a: multiset<nat>, ws: seq<nat>, nextReq: nat)
    requires Ordered(g, a, ws, nextReq)
    ensures Ordered(g, a, ws + [nextReq], nextReq + 1)
  {
    var before := g + ws;
    assert g + (ws + [nextReq]) == before + [nextReq];
  }

  lemma NewcomerRefused(g: seq<nat>, a: multiset<nat>, ws: seq<nat>, nextReq: nat)
    requires Ordered(g, a, ws, nextReq)
    ensures Ordered(g, a + multiset{nextReq}, ws, nextReq + 1)
  {
  }

  // ------------------------------------------------------------ whole queues

  /** One refusal for everyone who waits. */
  function AllRefused(replies: seq<Reply>, waiters: seq<nat>, reason: Reason): seq<Reply>
    decreases |waiters|
  {
    if waiters == [] then replies
    else AllRefused(replies + [Refused(waiters[0], reason)], waiters[1..], reason)
  }

  /** Those whose caller has given up leave the queue, */
  function Prune(waiters: seq<nat>, gone: set<nat>): seq<nat> {
    if waiters == [] then []
    else (if waiters[0] in gone then [] else [waiters[0]]) + Prune(waiters[1..], gone)
  }

  /** each with a refusal. */
  function PruneReplies(replies: seq<Reply>, waiters: seq<nat>, gone: set<nat>): seq<Reply>
    decreases |waiters|
  {
    if waiters == [] then replies
    else
      PruneReplies(if waiters[0] in gone then replies + [Refused(waiters[0], ContextDone)] else replies,
                   waiters[1..], gone)
  }

  function Refusals(waiters: seq<nat>, reason: Reason): seq<Reply> {
    seq(|waiters|, i requires 0 <= i < |waiters| => Refused(waiters[i], reason))
  }

  lemma {:induction false} AllRefusedIs(replies: seq<Reply>, waiters: seq<nat>, reason: Reason)
    ensures AllRefused(replies, waiters, reason) == replies + Refusals(waiters, reason)
    decreases |waiters|
  {
    if waiters == [] {
      assert replies + Refusals([], reason) == replies;
    } else {
      AllRefusedIs(replies + [Refused(waiters[0], reason)], waiters[1..], reason);
      assert Refusals(waiters, reason) == [Refused(waiters[0], reason)] + Refusals(waiters[1..], reason);
      assert replies + [Refused(waiters[0], reason)] + Refusals(waiters[1..], reason) ==
             replies + ([Refused(waiters[0], reason)] + Refusals(waiters[1..], reason));
    }
  }

  /** Exactly those in `gone` leave the queue, */
  lemma {:induction false} PruneIs(waiters: seq<nat>, gone: set<nat>, w: nat)
    ensures multiset(Prune(waiters, gone))[w] == if w in gone then 0 else multiset(waiters)[w]
    decreases |waiters|
  {
    if waiters != [] {
      assert waiters == [waiters[0]] + waiters[1..];
      PruneIs(waiters[1..], gone, w);
    }
  }

  /** and every reply is told to one of them. */
  lemma {:induction false} PrunedAreTold(replies: seq<Reply>, waiters: seq<nat>, gone: set<nat>)
    ensures var after := PruneReplies(replies, waiters, gone);
      && |after| == |replies| + |waiters| - |Prune(waiters, gone)| && replies <= after
      && forall i :: |replies| <= i < |after| ==>
           after[i].Refused? && after[i].reason == ContextDone && after[i].req in gone
    decreases |waiters|
  {
    if waiters != [] {
      var w := waiters[0];
      PrunedAreTold(if w in gone then replies + [Refused(w, ContextDone)] else replies, waiters[1..], gone);
    }
  }

  lemma RefusedInOrder(replies: seq<Reply>, waiters: seq<nat>, k: nat, reason: Reason, nextReq: nat)
    requires InOrder(replies, waiters, nextReq) && k < |waiters|
    ensures InOrder(replies + [Refused(waiters[k], reason)], Without(waiters, k), nextReq)
  {
    ReplyAppended(replies, Refused(waiters[k], reason));
    assert GrantedReqs(replies) + [] == GrantedReqs(replies);
    AnyRefused(GrantedReqs(replies), Answered(replies), waiters, k, nextReq);
  }

  lemma {:induction false} AllRefusedInOrder(replies: seq<Reply>, waiters: seq<nat>, reason: Reason, nextReq: nat)
    requires InOrder(replies, waiters, nextReq)
    ensures InOrder(AllRefused(replies, waiters, reason), [], nextReq)
    decreases |waiters|
  {
    if waiters != [] {
      RefusedInOrder(replies, waiters, 0, reason, nextReq);
      assert Without(waiters, 0) == waiters[1..];
      AllRefusedInOrder(replies + [Refused(waiters[0], reason)], waiters[1..], reason, nextReq);
    }
  }

  lemma {:induction false} PrunedInOrder(replies: seq<Reply>, kept: seq<nat>, waiters: seq<nat>, gone: set<nat>,
                                         nextReq: nat)
    requires InOrder(replies, kept + waiters, nextReq)
    ensures InOrder(PruneReplies(replies, waiters, gone), kept + Prune(waiters, gone), nextReq)
    decreases |waiters|
  {
    if waiters != [] {
      var w, rest := waiters[0], waiters[1..];
      FirstPruned(kept, waiters, gone);
      if w in gone {
        RefusedInOrder(replies, kept + waiters, |kept|, ContextDone, nextReq);
        PrunedInOrder(replies + [Refused(w, ContextDone)], kept, rest, gone, nextReq);
      } else {
        PrunedInOrder(replies, kept + [w], rest, gone, nextReq);
      }
    }
  }

  lemma FirstPruned(kept: seq<nat>, waiters: seq<nat>, gone: set<nat>)
    requires waiters != []
    ensures var w, rest := waiters[0], waiters[1..];
      && (kept + waiters)[|kept|] == w && Without(kept + waiters, |kept|) == kept + rest
      && kept + [w] + rest == kept + waiters
      && kept + Prune(waiters, gone) == (if w in gone then kept else kept + [w]) + Prune(rest, gone)
  {
    var w, rest := waiters[0], waiters[1..];
    if w in gone {
      assert Prune(waiters, gone) == Prune(rest, gone);
    } else {
      assert Prune(waiters, gone) == [w] + Prune(rest, gone);
      Regroup(kept, [w], Prune(rest, gone));
    }
  }

  lemma FrontServedInOrder(replies: seq<Reply>, waiters: seq<nat>, conn: nat, nextReq: nat)
    requires InOrder(replies, waiters, nextReq) && waiters != []
    ensures InOrder(replies + [Granted(waiters[0], conn)], waiters[1..], nextReq)
  {
    ReplyAppended(replies, Granted(waiters[0], conn));
    FrontGranted(GrantedReqs(replies), Answered(replies), waiters, nextReq);
  }

  lemma QueuedInOrder(replies: seq<Reply>, waiters: seq<nat>, nextReq: nat)
    requires InOrder(replies, waiters, nextReq)
    ensures InOrder(replies, waiters + [nextReq], nextReq + 1)
  {
    NewcomerQueued(GrantedReqs(replies), Answered(replies), waiters, nextReq);
  }

  /** Serving a newcomer at once is queueing it behind nobody and then serving it. */
  lemma NewcomerServedInOrder(replies: seq<Reply>, conn: nat, nextReq: nat)
    requires InOrder(replies, [], nextReq)
    ensures InOrder(replies + [Granted(nextReq, conn)], [], nextReq + 1)
  {
    QueuedInOrder(replies, [], nextReq);
    assert [] + [nextReq] == [nextReq] && [nextReq][1..] == [];
    FrontServedInOrder(replies, [nextReq], conn, nextReq + 1);
  }

  lemma NewcomerRefusedInOrder(replies: seq<Reply>, waiters: seq<nat>, reason: Reason, nextReq: nat)
    requires InOrder(replies, waiters, nextReq)
    ensures InOrder(replies + [Refused(nextReq, reason)], waiters, nextReq + 1)
  {
    ReplyAppended(replies, Refused(nextReq, reason));
    assert GrantedReqs(replies) + [] == GrantedReqs(replies);
    NewcomerRefused(GrantedReqs(replies), Answered(replies), waiters, nextReq);
  }
}
