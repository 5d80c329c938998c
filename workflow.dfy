/** A post as a value, and the effect of a sequence of calls on it. This is the
    specification the imperative `Blog.Post` is proved against. */
module Workflow {
  import opened Wrappers
  import States

  /** What a post holds between calls: its current state and its stored content. */
  datatype Snapshot = Snapshot(state: States.State, content: string)

  /** One call of the post's public mutating interface. */
  datatype Call = AddText(text: string) | RequestReview | Approve | Reject

  /** A freshly created post: a draft with empty content. */
  function New(): (p: Snapshot)
    ensures p.state == States.Draft && p.content == ""
  {
    Snapshot(States.Draft, "")
  }

  /** The effect of one call: the state decides both the next state and the
      text, if any, that is appended. */
  function Step(p: Snapshot, c: Call): Snapshot {
    match c
    case AddText(text) =>
      (match States.AddText(p.state, text)
       case Some(t) => Snapshot(p.state, p.content + t)
       case None => p)
    case RequestReview => Snapshot(States.RequestReview(p.state), p.content)
    case Approve => Snapshot(States.Approve(p.state), p.content)
    case Reject => Snapshot(States.Reject(p.state), p.content)
  }

  /** The content a reader sees. */
  function Observe(p: Snapshot): string {
    States.Content(p.state, p.content)
  }

  /** The effect of calls made in order. */
  function Run(p: Snapshot, calls: seq<Call>): Snapshot
    decreases |calls|
  {
    if calls == [] then p else Run(Step(p, calls[0]), calls[1..])
  }

  /** States alone, ignoring content: the state a sequence of calls leads to. */
  function NextState(s: States.State, c: Call): States.State {
    match c
    case AddText(_) => s
    case RequestReview => States.RequestReview(s)
    case Approve => States.Approve(s)
    case Reject => States.Reject(s)
  }

  function RunState(s: States.State, calls: seq<Call>): States.State
    decreases |calls|
  {
    if calls == [] then s else RunState(NextState(s, calls[0]), calls[1..])
  }

  /** The fragments, concatenated in call order, that were submitted while the
      state was a draft; fragments submitted in any other state contribute nothing. */
  function DraftText(s: States.State, calls: seq<Call>): string
    decreases |calls|
  {
    if calls == [] then ""
    else
      var here := if calls[0].AddText? && s == States.Draft then calls[0].text else "";
      here + DraftText(NextState(s, calls[0]), calls[1..])
  }

  function Approvals(calls: seq<Call>): nat
    decreases |calls|
  {
    if calls == [] then 0 else (if calls[0] == Approve then 1 else 0) + Approvals(calls[1..])
  }

  /** The calls each state admits: a draft takes text and review requests, a
      review stage takes approvals and rejections, a published post takes none. */
  predicate Permitted(s: States.State, c: Call) {
    match s
    case Draft => c.AddText? || c == RequestReview
    case PendingReview0 => c == Approve || c == Reject
    case PendingReview1 => c == Approve || c == Reject
    case Published => false
  }

  /** A call a state does not admit is a silent no-op: same state, same content.
      Conversely every admitted call changes the post, except appending empty text. */
  lemma NotPermittedIsNoOp(p: Snapshot, c: Call)
    ensures !Permitted(p.state, c) ==> Step(p, c) == p
    ensures Permitted(p.state, c) && c != AddText("") ==> Step(p, c) != p
  {
    if c.AddText? && p.state == States.Draft && c.text != "" {
      assert |Step(p, c).content| == |p.content| + |c.text|;
    }
  }

  /** `add_text` never changes the state; it appends exactly the text in a draft
      and drops it everywhere else. */
  lemma AddTextEffect(p: Snapshot, text: string)
    ensures Step(p, AddText(text)).state == p.state
    ensures p.state == States.Draft ==> Step(p, AddText(text)).content == p.content + text
    ensures p.state != States.Draft ==> Step(p, AddText(text)).content == p.content
  {
  }

  /** `reject` from either review stage returns exactly to a draft and keeps the content. */
  lemma RejectKeepsContent(p: Snapshot)
    requires p.state.IsPending()
    ensures Step(p, Reject) == Snapshot(States.Draft, p.content)
  {
  }

  /** The state a post reaches does not depend on its content. */
  lemma {:induction false} RunStateAgrees(p: Snapshot, calls: seq<Call>)
    ensures Run(p, calls).state == RunState(p.state, calls)
    decreases |calls|
  {
    if calls != [] {
      assert Step(p, calls[0]).state == NextState(p.state, calls[0]);
      RunStateAgrees(Step(p, calls[0]), calls[1..]);
    }
  }

  /** The content after a sequence of calls is the content before, followed by
      exactly the fragments submitted while in draft, in call order: nothing is
      ever removed, and dropped fragments never reappear. */
  lemma {:induction false} RunContent(p: Snapshot, calls: seq<Call>)
    ensures Run(p, calls).content == p.content + DraftText(p.state, calls)
    decreases |calls|
  {
    if calls != [] {
      var q := Step(p, calls[0]);
      assert q.state == NextState(p.state, calls[0]);
      var here := if calls[0].AddText? && p.state == States.Draft then calls[0].text else "";
      assert q.content == p.content + here;
      RunContent(q, calls[1..]);
      assert p.content + here + DraftText(q.state, calls[1..])
          == p.content + (here + DraftText(q.state, calls[1..]));
    }
  }

  /** Content is never cleared: what was stored is a prefix of what is stored later. */
  lemma ContentOnlyGrows(p: Snapshot, calls: seq<Call>)
    ensures p.content <= Run(p, calls).content
  {
    RunContent(p, calls);
  }

  /** A published post is absorbing: no sequence of calls changes its state or content. */
  lemma {:induction false} PublishedIsAbsorbing(p: Snapshot, calls: seq<Call>)
    requires p.state == States.Published
    ensures Run(p, calls) == p
    decreases |calls|
  {
    if calls != [] {
      assert Step(p, calls[0]) == p;
      PublishedIsAbsorbing(p, calls[1..]);
    }
  }

  /** Each approval removes at most one outstanding approval and no other call
      removes any, so a sequence of calls with k approvals gets at most k
      approvals closer to publication. */
  lemma {:induction false} ApprovalsBound(p: Snapshot, calls: seq<Call>)
    ensures States.ApprovalsNeeded(p.state) <= States.ApprovalsNeeded(Run(p, calls).state) + Approvals(calls)
    decreases |calls|
  {
    if calls != [] {
      States.ApprovalsNeededSteps(p.state);
      ApprovalsBound(Step(p, calls[0]), calls[1..]);
    }
  }

  /** From a draft or the first review stage, publication takes at least two
      approvals, whatever else is called in between. */
  lemma PublishingNeedsTwoApprovals(p: Snapshot, calls: seq<Call>)
    requires p.state == States.Draft || p.state == States.PendingReview0
    requires Run(p, calls).state == States.Published
    ensures Approvals(calls) >= 2
  {
    ApprovalsBound(p, calls);
  }

  /** After a review request, one approval leaves the content hidden and a second publishes it. */
  lemma TwoApprovalsPublish(content: string)
    ensures Observe(Run(Snapshot(States.Draft, content), [RequestReview, Approve])) == ""
    ensures Run(Snapshot(States.Draft, content), [RequestReview, Approve, Approve]).state == States.Published
    ensures Observe(Run(Snapshot(States.Draft, content), [RequestReview, Approve, Approve])) == content
  {
    var d := Snapshot(States.Draft, content);
    assert Run(d, [RequestReview, Approve]) == Snapshot(States.PendingReview1, content) by {
      assert [RequestReview, Approve][1..] == [Approve];
    }
    assert Run(d, [RequestReview, Approve, Approve]) == Snapshot(States.Published, content) by {
      assert [RequestReview, Approve, Approve][1..] == [Approve, Approve];
      assert [Approve, Approve][1..] == [Approve];
    }
  }

  /** Content is visible only once published, and then it is all of it. */
  lemma ObserveOnlyWhenPublished(p: Snapshot)
    ensures Observe(p) != "" ==> p.state == States.Published
    ensures p.state == States.Published ==> Observe(p) == p.content
  {
  }

  /** The calls of the demonstration: text, review, text while in review, reject,
      text again, review, two approvals. */
  function Scenario(t1: string, t2: string, t3: string): seq<Call> {
    [AddText(t1), RequestReview, AddText(t2), Reject, AddText(t3), RequestReview, Approve, Approve]
  }

  /** The fragment sent while in review is dropped; the published content is the
      first fragment followed by the third, and it is hidden after the first
      fragment and after the first review request. */
  lemma ScenarioOutcome(t1: string, t2: string, t3: string)
    ensures Observe(Run(New(), Scenario(t1, t2, t3)[..1])) == ""
    ensures Observe(Run(New(), Scenario(t1, t2, t3)[..2])) == ""
    ensures Run(New(), Scenario(t1, t2, t3)).state == States.Published
    ensures Observe(Run(New(), Scenario(t1, t2, t3))) == t1 + t3
  {
    var calls := Scenario(t1, t2, t3);
    var p1 := Snapshot(States.Draft, t1);
    var p2 := Snapshot(States.PendingReview0, t1);
    var p4 := Snapshot(States.Draft, t1);
    var p5 := Snapshot(States.Draft, t1 + t3);
    var p6 := Snapshot(States.PendingReview0, t1 + t3);
    var p7 := Snapshot(States.PendingReview1, t1 + t3);
    var p8 := Snapshot(States.Published, t1 + t3);
    assert Step(New(), calls[0]) == p1 by { assert "" + t1 == t1; }
    assert Step(p1, calls[1]) == p2;
    assert Step(p2, calls[2]) == p2;
    assert Step(p2, calls[3]) == p4;
    assert Step(p4, calls[4]) == p5;
    assert Step(p5, calls[5]) == p6;
    assert Step(p6, calls[6]) == p7;
    assert Step(p7, calls[7]) == p8;
    assert Run(New(), calls[..1]) == p1 by {
      RunUnfold(New(), calls[..1], 0);
      assert calls[..1][1..] == [];
    }
    assert Run(New(), calls[..2]) == p2 by {
      RunUnfold(New(), calls[..2], 0);
      RunUnfold(p1, calls[..2], 1);
      assert calls[..2][2..] == [];
    }
    assert Run(p8, calls[8..]) == p8 by { assert calls[8..] == []; }
    RunUnfold(p7, calls, 7);
    RunUnfold(p6, calls, 6);
    RunUnfold(p5, calls, 5);
    RunUnfold(p4, calls, 4);
    RunUnfold(p2, calls, 3);
    RunUnfold(p2, calls, 2);
    RunUnfold(p1, calls, 1);
    RunUnfold(New(), calls, 0);
    assert calls[0..] == calls;
  }

  /** Running a suffix takes its first call and then the rest. */
  lemma RunUnfold(p: Snapshot, calls: seq<Call>, k: nat)
    requires k < |calls|
    ensures Run(p, calls[k..]) == Run(Step(p, calls[k]), calls[k + 1..])
  {
    assert calls[k..][1..] == calls[k + 1..];
  }

  /** The demonstration with its own literal text. */
  lemma DemoOutcome()
    ensures Observe(Run(New(), Scenario("I ate a salad for lunch today", "\nIt was delicious!", "\nIt was delicious!")))
         == "I ate a salad for lunch today\nIt was delicious!"
  {
    ScenarioOutcome("I ate a salad for lunch today", "\nIt was delicious!", "\nIt was delicious!");
  }
}
