/** The four workflow states of a blog post and their per-state behaviour.
    Each state of the source is a unit struct implementing a common behaviour
    with default methods; here a state is one constructor of a datatype and each
    behaviour is a total function over it. A transition that consumes a state
    and returns its replacement is a function from the old state to the new. */
module States {
  import opened Wrappers

  datatype State = Draft | PendingReview0 | PendingReview1 | Published {

    /** True in the two review states, the only ones `approve` and `reject` act on. */
    predicate IsPending() {
      this == PendingReview0 || this == PendingReview1
    }
  }

  /** `request_review`: a draft goes to the first review; every other state keeps itself. */
  function RequestReview(s: State): (r: State)
    ensures s == Draft ==> r == PendingReview0
    ensures s != Draft ==> r == s
  {
    match s
    case Draft => PendingReview0
    case PendingReview0 => s
    case PendingReview1 => s
    case Published => s
  }

  /** `approve`: each review stage moves one step forward; drafts and published posts keep themselves. */
  function Approve(s: State): (r: State)
    ensures s == PendingReview0 ==> r == PendingReview1
    ensures s == PendingReview1 ==> r == Published
    ensures !s.IsPending() ==> r == s
  {
    match s
    case Draft => s
    case PendingReview0 => PendingReview1
    case PendingReview1 => Published
    case Published => s
  }

  /** `reject`: both review stages fall back to a draft; drafts and published posts keep themselves. */
  function Reject(s: State): (r: State)
    ensures s.IsPending() ==> r == Draft
    ensures !s.IsPending() ==> r == s
  {
    match s
    case Draft => s
    case PendingReview0 => Draft
    case PendingReview1 => Draft
    case Published => s
  }

  /** `add_text` of a state: the text to append, if any. Only a draft overrides
      the default, which accepts nothing. */
  function AddText(s: State, text: string): (r: Option<string>)
    ensures r.Some? <==> s == Draft
    ensures r.Some? ==> r.value == text
  {
    match s
    case Draft => Some(text)
    case _ => None
  }

  /** `content` of a state, given the post's stored content. Only a published
      post overrides the default, which shows the empty string. */
  function Content(s: State, postContent: string): (r: string)
    ensures s == Published ==> r == postContent
    ensures s != Published ==> r == ""
  {
    match s
    case Published => postContent
    case _ => ""
  }

  /** Approvals still needed before the post is published. */
  function ApprovalsNeeded(s: State): nat {
    match s
    case Draft => 2
    case PendingReview0 => 2
    case PendingReview1 => 1
    case Published => 0
  }

  /** An approval removes at most one outstanding approval, and exactly one in a
      review stage; no other transition brings publication closer. */
  lemma ApprovalsNeededSteps(s: State)
    ensures ApprovalsNeeded(Approve(s)) + 1 >= ApprovalsNeeded(s)
    ensures s.IsPending() ==> ApprovalsNeeded(Approve(s)) + 1 == ApprovalsNeeded(s)
    ensures ApprovalsNeeded(RequestReview(s)) >= ApprovalsNeeded(s)
    ensures ApprovalsNeeded(Reject(s)) >= ApprovalsNeeded(s)
  {
  }
}
