/** The room invariant `RoomSpec.Valid` holds of a new room and is kept by
    every admissible join, leave and client frame. */
module RoomInvariant {
  import opened PokerTypes
  import opened RoomSpec

  lemma SamePubIds(u1: map<UserUuid, User>, u2: map<UserUuid, User>)
    requires u1.Keys == u2.Keys
    requires forall k :: k in u1 ==> u1[k].pubUserUuid == u2[k].pubUserUuid
    ensures PubIds(u1) == PubIds(u2)
  {
    forall p | p in PubIds(u1) ensures p in PubIds(u2) {
      var k :| k in u1 && u1[k].pubUserUuid == p;
      assert u2[k].pubUserUuid == p;
    }
    forall p | p in PubIds(u2) ensures p in PubIds(u1) {
      var k :| k in u2 && u2[k].pubUserUuid == p;
      assert u1[k].pubUserUuid == p;
    }
  }

  lemma EmptyRoomValid()
    ensures Valid(EmptyRoom())
  {
  }

  /** A join with a public uuid nobody in the room has keeps the invariant. */
  lemma JoinKeepsValid(s: RoomState, userId: UserUuid, freshPub: UserUuid)
    requires Valid(s) && freshPub !in PubIds(s.users)
    ensures Valid(JoinSpec(s, userId, freshPub))
  {
    var r := JoinSpec(s, userId, freshPub);
    assert PubIds(s.users) <= PubIds(r.users) by {
      forall p | p in PubIds(s.users) ensures p in PubIds(r.users) {
        var k :| k in s.users && s.users[k].pubUserUuid == p;
        assert r.users[k].pubUserUuid == p;
      }
    }
    assert r.users[userId].pubUserUuid in PubIds(r.users);
    forall a, b | a in r.users && b in r.users && a != b
      ensures r.users[a].pubUserUuid != r.users[b].pubUserUuid
    {
      if a == userId && userId !in s.users {
        assert s.users[b].pubUserUuid in PubIds(s.users);
      } else if b == userId && userId !in s.users {
        assert s.users[a].pubUserUuid in PubIds(s.users);
      }
    }
  }

  lemma LeaveKeepsValid(s: RoomState, userId: UserUuid)
    requires Valid(s)
    ensures Valid(LeaveSpec(s, userId))
  {
    SamePubIds(s.users, LeaveSpec(s, userId).users);
  }

  lemma AddStoriesKeepsValid(s: RoomState, items: seq<StoryItem>, newIds: seq<StoryUuid>)
    requires Valid(s) && |newIds| == |items| && FreshStoryIds(s, newIds)
    ensures Valid(ApplyAddStories(s, items, newIds).room)
  {
    var added := NewStories(items, newIds);
    var all := s.stories + added;
    forall i, j | 0 <= i < j < |all| ensures all[i].storyUuid != all[j].storyUuid {
      if j >= |s.stories| && i < |s.stories| {
        assert s.stories[i] in s.stories;
      }
    }
    assert forall t :: t in added ==> t.votes == map[];
  }

  lemma RemoveStoryKeepsValid(s: RoomState, id: StoryUuid)
    requires Valid(s)
    ensures Valid(ApplyRemoveStory(s, id).room)
  {
    var kept := Retain(s.stories, id);
    RetainKeepsDistinct(s.stories, id);
    RetainCounts(s.stories, id);
    forall t | t in kept ensures t in s.stories {
      assert multiset(kept)[t] > 0;
    }
  }

  lemma VoteKeepsValid(s: RoomState, userId: UserUuid, id: StoryUuid, v: Vote)
    requires Valid(s)
    ensures Valid(ApplyVote(s, userId, id, v).room)
  {
    var r := ApplyVote(s, userId, id, v).room;
    if r != s {
      var i := IndexOf(s.stories, id).value;
      var pub := s.users[userId].pubUserUuid;
      assert pub in PubIds(s.users);
      forall t, p | t in r.stories && p in t.votes ensures p in PubIds(s.users) {
        var j :| 0 <= j < |r.stories| && r.stories[j] == t;
        if j != i { assert s.stories[j] in s.stories; }
        else { assert p == pub || p in s.stories[i].votes; assert s.stories[i] in s.stories; }
      }
    }
  }

  lemma FinishKeepsValid(s: RoomState, id: StoryUuid)
    requires Valid(s)
    ensures Valid(ApplyFinish(s, id).room)
  {
    var r := ApplyFinish(s, id).room;
    if r != s {
      var i := IndexOf(s.stories, id).value;
      forall t, p | t in r.stories && p in t.votes ensures p in PubIds(s.users) {
        var j :| 0 <= j < |r.stories| && r.stories[j] == t;
        assert s.stories[j] in s.stories;
      }
    }
  }

  lemma SetUserKeepsValid(s: RoomState, userId: UserUuid, name: string, role: UserRole)
    requires Valid(s)
    ensures Valid(ApplySetUser(s, userId, name, role).room)
  {
    SamePubIds(s.users, ApplySetUser(s, userId, name, role).room.users);
  }

  /** Every admissible event keeps the room invariant. */
  lemma StepKeepsValid(s: RoomState, e: Event)
    requires Valid(s) && WellFormed(e) && Admissible(s, e)
    ensures Valid(Step(s, e))
  {
    match e
    case Joined(userId, freshPub) => JoinKeepsValid(s, userId, freshPub);
    case Left(userId) => LeaveKeepsValid(s, userId);
    case Received(userId, pub, frame, parsed, newIds) =>
      if Dispatch(s, userId, pub, frame, parsed, newIds).room != s {
        match parsed.value
        case SetUser(name, role) => SetUserKeepsValid(s, userId, name, role);
        case AddStories(items) => AddStoriesKeepsValid(s, items, newIds);
        case RemoveStory(id) => RemoveStoryKeepsValid(s, id);
        case CastVote(id, v) => VoteKeepsValid(s, userId, id, v);
        case FinishVoting(id) => FinishKeepsValid(s, id);
        case SetActiveStory(id) =>
      }
  }

  /** Every room the server reaches from a new room through admissible events
      satisfies the invariant. */
  lemma {:induction false} RunKeepsValid(s: RoomState, es: seq<Event>)
    requires forall i :: 0 <= i < |es| ==> WellFormed(es[i])
    requires Valid(s) && AdmissibleRun(s, es)
    ensures Valid(Run(s, es))
    decreases |es|
  {
    if es != [] {
      StepKeepsValid(s, es[0]);
      RunKeepsValid(Step(s, es[0]), es[1..]);
    }
  }
}
