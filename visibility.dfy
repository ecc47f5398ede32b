/** The vote-concealment rule: while a story is still open and some active
    voter has not voted, each viewer sees only their own vote and `Hidden`
    for everybody else's. */
module Visibility {
  import opened PokerTypes

  /** Some active Voter of the room has no vote on `story` yet. */
  predicate MissingVoter(story: Story, users: map<UserUuid, User>)
  {
    exists k :: k in users && users[k].role == Voter && users[k].isActive && users[k].pubUserUuid !in story.votes
  }

  /** The votes of `story` are shown as they are: the story is finished or
      every active Voter has voted. */
  predicate Revealed(story: Story, users: map<UserUuid, User>)
  {
    story.state == Finished || !MissingVoter(story, users)
  }

  /** The vote map of `story` as the user with public uuid `viewer` is
      allowed to see it. */
  function ComputeVotes(story: Story, users: map<UserUuid, User>, viewer: UserUuid): (r: map<UserUuid, Vote>)
    ensures r.Keys == story.votes.Keys
    ensures viewer in story.votes ==> r[viewer] == story.votes[viewer]
    ensures Revealed(story, users) ==> r == story.votes
    ensures !Revealed(story, users) ==> forall k :: k in r && k != viewer ==> r[k] == Hidden
  {
    var finished := story.state == Finished || !MissingVoter(story, users);
    if finished then story.votes
    else map k | k in story.votes :: if k == viewer then story.votes[k] else Hidden
  }

  /** While votes are concealed, what a viewer sees does not depend on the
      values of the other users' votes: two stories that agree on who voted
      and on the viewer's own vote look the same to that viewer. */
  lemma ConcealedVotesDoNotLeak(s1: Story, s2: Story, users: map<UserUuid, User>, viewer: UserUuid)
    requires s1.state == s2.state
    requires s1.votes.Keys == s2.votes.Keys
    requires viewer in s1.votes ==> s1.votes[viewer] == s2.votes[viewer]
    requires !Revealed(s1, users)
    ensures ComputeVotes(s1, users, viewer) == ComputeVotes(s2, users, viewer)
  {
    assert MissingVoter(s1, users) == MissingVoter(s2, users);
    var r1, r2 := ComputeVotes(s1, users, viewer), ComputeVotes(s2, users, viewer);
    forall k | k in r1
      ensures r1[k] == r2[k]
    {
    }
  }

  /** Once votes are revealed every viewer sees the same, real map. */
  lemma RevealedIsSameForEveryone(story: Story, users: map<UserUuid, User>, a: UserUuid, b: UserUuid)
    requires Revealed(story, users)
    ensures ComputeVotes(story, users, a) == ComputeVotes(story, users, b) == story.votes
  {
  }

  /** The last missing vote of an active Voter reveals the votes: when
      `voter` is the only active Voter without a vote, adding that vote makes
      the votes visible to everyone. */
  lemma LastVoteReveals(story: Story, users: map<UserUuid, User>, voter: UserUuid, v: Vote)
    requires voter in users
    requires forall k :: k in users && users[k].role == Voter && users[k].isActive ==>
               users[k].pubUserUuid in story.votes || users[k].pubUserUuid == users[voter].pubUserUuid
    ensures Revealed(story.(votes := story.votes[users[voter].pubUserUuid := v]), users)
  {
  }

  /** A viewer sees a `Hidden` entry exactly when the votes are concealed
      and somebody else has voted, or somebody actually voted `Hidden`. */
  lemma HiddenShownIff(story: Story, users: map<UserUuid, User>, viewer: UserUuid)
    ensures (exists k :: k in story.votes && ComputeVotes(story, users, viewer)[k] == Hidden) <==>
            (exists k :: k in story.votes && story.votes[k] == Hidden) ||
            (!Revealed(story, users) && exists k :: k in story.votes && k != viewer)
  {
    var r := ComputeVotes(story, users, viewer);
    if !Revealed(story, users) && exists k :: k in story.votes && k != viewer {
      var k :| k in story.votes && k != viewer;
      assert r[k] == Hidden;
    }
    if exists k :: k in story.votes && story.votes[k] == Hidden {
      var k :| k in story.votes && story.votes[k] == Hidden;
      assert r[k] == Hidden;
    }
  }
}
