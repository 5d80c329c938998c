/** The blog post handle: a mutable object holding a state slot and a content
    buffer. Each transition takes the state out of its slot, leaving it empty for
    a moment, and puts the successor back; each method is proved against
    `Workflow.Step`. */
module Blog {
  import opened Wrappers
  import States
  import Workflow

  class Post {
    var state: Option<States.State>
    var content: string

    /** Between calls the state slot is filled. */
    ghost predicate Valid()
      reads this
    {
      state.Some?
    }

    /** The post as a value. */
    ghost function Value(): Workflow.Snapshot
      reads this
      requires Valid()
    {
      Workflow.Snapshot(state.value, content)
    }

    /** A new post is a draft with empty content. */
    constructor ()
      ensures Valid() && Value() == Workflow.New()
      ensures state == Some(States.Draft) && content == ""
    {
      state := Some(States.Draft);
      content := "";
    }

    /** Appends `text` if the current state accepts it (only a draft does);
        the state itself is not touched. */
    method AddText(text: string)
      requires Valid()
      modifies this`content
      ensures Valid() && state == old(state)
      ensures content == if old(state) == Some(States.Draft) then old(content) + text else old(content)
      ensures Value() == Workflow.Step(old(Value()), Workflow.AddText(text))
    {
      var accepted := States.AddText(state.value, text);
      if accepted.Some? {
        content := content + accepted.value;
      }
    }

    /** Replaces the state by its successor under a review request; an empty
        slot is left empty. The content is not touched. */
    method RequestReview()
      modifies this`state
      ensures state == if old(state).Some? then Some(States.RequestReview(old(state).value)) else None
      ensures old(Valid()) ==> Valid() && Value() == Workflow.Step(old(Value()), Workflow.RequestReview)
    {
      if state.Some? {
        var s := state.value;
        state := None;
        state := Some(States.RequestReview(s));
      }
    }

    /** Replaces the state by its successor under a rejection; an empty slot is
        left empty. The content is not touched. */
    method Reject()
      modifies this`state
      ensures state == if old(state).Some? then Some(States.Reject(old(state).value)) else None
      ensures old(Valid()) ==> Valid() && Value() == Workflow.Step(old(Value()), Workflow.Reject)
    {
      if state.Some? {
        var s := state.value;
        state := None;
        state := Some(States.Reject(s));
      }
    }

    /** Replaces the state by its successor under an approval; an empty slot is
        left empty. The content is not touched. */
    method Approve()
      modifies this`state
      ensures state == if old(state).Some? then Some(States.Approve(old(state).value)) else None
      ensures old(Valid()) ==> Valid() && Value() == Workflow.Step(old(Value()), Workflow.Approve)
    {
      if state.Some? {
        var s := state.value;
        state := None;
        state := Some(States.Approve(s));
      }
    }

    /** The content a reader sees: all of it once published, nothing before. */
    method Content() returns (r: string)
      requires Valid()
      ensures state == Some(States.Published) ==> r == content
      ensures state != Some(States.Published) ==> r == ""
      ensures r == Workflow.Observe(Value())
    {
      r := States.Content(state.value, content);
    }
  }

  /** The demonstration on a real post: text, review, text while in review
      (dropped), reject, text, review, two approvals. Reading the content after
      the first text and after the first review request gives nothing; at the
      end it is the first fragment followed by the third. */
  method Demo(t1: string, t2: string, t3: string) returns (afterText: string, afterReview: string, published: string)
    ensures afterText == "" && afterReview == ""
    ensures published == t1 + t3
  {
    var post := new Post();
    post.AddText(t1);
    assert post.content == t1 by { assert "" + t1 == t1; }
    afterText := post.Content();
    post.RequestReview();
    afterReview := post.Content();
    post.AddText(t2);
    post.Reject();
    assert post.state == Some(States.Draft) && post.content == t1;
    post.AddText(t3);
    post.RequestReview();
    post.Approve();
    post.Approve();
    assert post.state == Some(States.Published) && post.content == t1 + t3;
    published := post.Content();
  }
}
