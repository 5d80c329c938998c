# Blog post workflow (state pattern)

A model of the `blog` crate: a post that is written as a draft, sent for
review, approved twice and then published, and that may be rejected back to a
draft from either review stage. The post owns a content buffer and a state
slot; the state decides which calls have an effect and whether the content is
visible.

- `wrappers.dfy` — module `Wrappers`: the `Option` used for the state slot and
  for the text a state accepts.
- `states.dfy` — module `States`: the four states (`Draft`, `PendingReview0`,
  `PendingReview1`, `Published`) as one datatype, and each state's
  `request_review`, `approve`, `reject`, `add_text` and `content` as total
  functions. The shared defaults (`add_text` accepts nothing, `content` shows
  `""`) are the fall-through arm of a `match`; `Draft` and `Published` override
  them.
- `workflow.dfy` — module `Workflow`: a post as a value (`Snapshot`), one call
  (`Call`) and its effect (`Step`), the effect of a sequence of calls (`Run`),
  and the lemmas about whole call sequences: calls a state does not admit are
  no-ops, content is the draft-time fragments in call order, published posts do
  not change, publication needs two approvals, and the demonstration scenario.
- `post.dfy` — module `Blog`: the mutable `Post` class with its `state: Option<State>`
  and `content: string` fields. Each transition empties the slot and refills it
  with the successor, as the source's take-and-replace does; every method is
  proved against `Workflow.Step`, and `Valid()` (the slot is filled) holds
  after every call. `Demo` drives the demonstration on a real object.

## Model

| member | source | states |
|---|---|---|
| States.RequestReview | src/lib.rs:150-217 | a draft goes to the first review stage; every other state is left as it is |
| States.Approve | src/lib.rs:155-222 | first review goes to second review, second review goes to published; draft and published are left as they are |
| States.Reject | src/lib.rs:160-227 | both review stages go back to draft; draft and published are left as they are |
| States.AddText | src/lib.rs:135-167 | a state accepts text if and only if it is a draft, and then accepts exactly the given text |
| States.Content | src/lib.rs:140-232 | the published state shows exactly the stored content; every other state shows the empty string |
| States.ApprovalsNeededSteps | src/lib.rs:179-202 | an approval brings publication exactly one approval closer in a review stage and never more than one; review requests and rejections never bring it closer |
| Workflow.New | src/lib.rs:21-26 | a new post is a draft with empty content |
| Workflow.NotPermittedIsNoOp | src/lib.rs:129-232 | a call the state does not admit leaves state and content unchanged; an admitted call (other than appending empty text) always changes the post |
| Workflow.AddTextEffect | src/lib.rs:37-42 | `add_text` never changes the state, appends the text in a draft and drops it in every other state |
| Workflow.RejectKeepsContent | src/lib.rs:75-79 | rejecting from either review stage gives a draft with the same content, not cleared |
| Workflow.RunStateAgrees | src/lib.rs:55-98 | the state reached by any call sequence depends only on the starting state and the calls, not on the content |
| Workflow.RunContent | src/lib.rs:37-42 | after any call sequence the content is the old content followed by exactly the fragments submitted while in draft, in call order |
| Workflow.ContentOnlyGrows | src/lib.rs:37-42 | content is never removed: the old content is a prefix of the content after any call sequence |
| Workflow.PublishedIsAbsorbing | src/lib.rs:213-227 | once published, no call sequence changes the state or the content |
| Workflow.ApprovalsBound | src/lib.rs:94-98 | a call sequence with k approvals gets at most k approvals closer to publication |
| Workflow.PublishingNeedsTwoApprovals | src/lib.rs:81-98 | from a draft or the first review stage, any call sequence that publishes contains at least two approvals |
| Workflow.TwoApprovalsPublish | src/lib.rs:104-114 | after a review request one approval still shows empty content, and two approvals publish the post with its full content |
| Workflow.ObserveOnlyWhenPublished | src/lib.rs:116-119 | non-empty visible content implies published, and a published post shows all of its content |
| Workflow.ScenarioOutcome | src/main.rs:5-37 | in the demonstration the content is hidden after the first text and after the first review request, and ends published as fragment one followed by fragment three |
| Workflow.DemoOutcome | src/main.rs:37 | the demonstration with its own literal strings ends with the concatenation of the first and third literals |
| Blog.Post.constructor | src/lib.rs:21-26 | the slot holds `Draft`, the content is empty, and the object agrees with `Workflow.New` |
| Blog.Post.AddText | src/lib.rs:37-42 | state unchanged; content extended by the text exactly when the state is a draft; agrees with `Workflow.Step` |
| Blog.Post.RequestReview | src/lib.rs:55-60 | the slot holds the review-request successor of the old state (an empty slot stays empty); content unchanged; a filled slot stays filled; agrees with `Workflow.Step` |
| Blog.Post.Reject | src/lib.rs:75-79 | the slot holds the rejection successor of the old state (an empty slot stays empty); content unchanged; a filled slot stays filled; agrees with `Workflow.Step` |
| Blog.Post.Approve | src/lib.rs:94-98 | the slot holds the approval successor of the old state (an empty slot stays empty); content unchanged; a filled slot stays filled; agrees with `Workflow.Step` |
| Blog.Post.Content | src/lib.rs:116-119 | returns the stored content when published and the empty string otherwise |
| Blog.Demo | src/main.rs:5-37 | on a real post, the demonstration reads empty content twice and finally the first fragment followed by the third |

## Left out

- Ownership mechanics (`Box<dyn State>`, dynamic dispatch, lifetimes on the returned `&str`): the states are a datatype and each consuming transition is a function from the old state to the new one. Returning a borrowed slice is modelled as returning a string value.
- The panic of `unwrap()` in `add_text` and `content` on an empty slot: these two methods require the slot to be filled (`Valid()`), which every public method keeps, so the panic cannot happen. `request_review`, `reject` and `approve` need no such requirement, since the source checks for an empty slot and then does nothing; the model does the same.
- A compile-time typestate encoding (one type per state, transitions consuming one type and producing another) is not part of this model: the crate's files hold only the runtime state-object version. `Workflow.Permitted` records which calls each state admits, the nearest runtime counterpart.
- `src/main.rs` is a driver; its assertions appear as `Workflow.ScenarioOutcome`, `Workflow.DemoOutcome` and `Blog.Demo`, not as a modelled component.
