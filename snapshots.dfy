/** The per-recipient snapshots the server pushes after a handler: the users
    list with an `is_this` flag for the recipient's own entry, and the
    stories list with each story's votes masked for that recipient. */
module Snapshots {
  import opened PokerTypes
  import opened Visibility
  import opened RoomSpec

  datatype UserUpdate = UserUpdate(
    pubUserUuid: UserUuid,
    userName: string,
    role: UserRole,
    isThis: bool,
    isActive: bool)

  datatype StoryUpdate = StoryUpdate(
    storyUuid: StoryUuid,
    storyUrl: string,
    storyDescription: string,
    state: StoryState,
    votes: map<UserUuid, Vote>)

  datatype StoriesMessage = StoriesMessage(stories: seq<StoryUpdate>, activeStory: Option<StoryUuid>)

  /** What one recipient receives: a users list, a stories list, or (on
      join, to the joiner only) the room owner and the recipient's own
      public uuid. */
  datatype Payload =
    | UsersPayload(users: seq<UserUpdate>)
    | StoriesPayload(stories: StoriesMessage)
    | ConfigPayload(owner: UserUuid, me: UserUuid)

  /** `order` lists every user key exactly once: the order in which the
      server's user map happens to be iterated. */
  ghost predicate IsEnumeration(order: seq<UserUuid>, users: map<UserUuid, User>)
  {
    && (forall i, j :: 0 <= i < j < |order| ==> order[i] != order[j])
    && (forall k :: k in users <==> k in order)
  }

  lemma {:induction false} EnumerationLength(order: seq<UserUuid>, users: map<UserUuid, User>)
    requires IsEnumeration(order, users)
    ensures |order| == |users|
    decreases |order|
  {
    if order == [] {
      assert users.Keys == {};
    } else {
      var k := order[|order| - 1];
      var rest := order[..|order| - 1];
      var smaller := users - {k};
      forall x ensures x in smaller <==> x in rest {
        if x in rest {
          var i :| 0 <= i < |rest| && rest[i] == x;
          assert order[i] == x;
        }
        if x in users && x != k {
          var i :| 0 <= i < |order| && order[i] == x;
          assert rest[i] == x;
        }
      }
      EnumerationLength(rest, smaller);
      assert smaller.Keys == users.Keys - {k};
    }
  }

  /** The users list as the user stored under `recipientId` receives it. */
  function UsersSnapshot(users: map<UserUuid, User>, order: seq<UserUuid>, recipientId: UserUuid): seq<UserUpdate>
    requires recipientId in users
    requires forall i :: 0 <= i < |order| ==> order[i] in users
  {
    seq(|order|, i requires 0 <= i < |order| =>
      var u := users[order[i]];
      UserUpdate(u.pubUserUuid, u.userName, u.role, users[recipientId].userUuid == u.userUuid, u.isActive))
  }

  /** The users list has one entry per user of the room, each showing that
      user's public uuid, name, role and activity, and marks exactly one
      entry, the recipient's own, as `is_this`. */
  lemma IsThisExactlyOwnEntry(s: RoomState, order: seq<UserUuid>, recipientId: UserUuid)
    requires Valid(s) && IsEnumeration(order, s.users) && recipientId in s.users
    ensures var r := UsersSnapshot(s.users, order, recipientId);
      && |r| == |s.users|
      && (forall i :: 0 <= i < |r| ==>
            var u := s.users[order[i]];
            r[i].pubUserUuid == u.pubUserUuid && r[i].userName == u.userName &&
            r[i].role == u.role && r[i].isActive == u.isActive)
      && (exists i :: 0 <= i < |r| && r[i].isThis && r[i].pubUserUuid == s.users[recipientId].pubUserUuid)
      && (forall i, j :: 0 <= i < |r| && 0 <= j < |r| && r[i].isThis && r[j].isThis ==> i == j)
  {
    var r := UsersSnapshot(s.users, order, recipientId);
    EnumerationLength(order, s.users);
    var i :| 0 <= i < |order| && order[i] == recipientId;
    assert r[i].isThis;
    forall i, j | 0 <= i < |r| && 0 <= j < |r| && r[i].isThis && r[j].isThis ensures i == j {
      assert order[i] == recipientId && order[j] == recipientId;
    }
  }

  /** The stories list as the user with public uuid `viewer` receives it. */
  function StoriesSnapshot(s: RoomState, viewer: UserUuid): StoriesMessage
  {
    var shown := seq(|s.stories|, i requires 0 <= i < |s.stories| =>
      var t := s.stories[i];
      StoryUpdate(t.storyUuid, t.storyUrl, t.storyDescription, t.state, ComputeVotes(t, s.users, viewer)));
    StoriesMessage(shown, s.activeStory)
  }

  /** The stories list shows every story of the room, in order, with its
      uuid, url, description and state, the room's active story, and for
      each story the masked votes: the same voters, the viewer's own vote as
      cast, `Hidden` for everybody else's while they are concealed, and the
      real votes once they are revealed. */
  lemma StoriesSnapshotShowsEveryStory(s: RoomState, viewer: UserUuid)
    ensures var m := StoriesSnapshot(s, viewer);
      && m.activeStory == s.activeStory
      && |m.stories| == |s.stories|
      && forall i :: 0 <= i < |s.stories| ==>
           var t, u := s.stories[i], m.stories[i];
           && u.storyUuid == t.storyUuid && u.storyUrl == t.storyUrl
           && u.storyDescription == t.storyDescription && u.state == t.state
           && u.votes.Keys == t.votes.Keys
           && (viewer in t.votes ==> u.votes[viewer] == t.votes[viewer])
           && (Revealed(t, s.users) ==> u.votes == t.votes)
           && (!Revealed(t, s.users) ==> forall k :: k in u.votes && k != viewer ==> u.votes[k] == Hidden)
  {
  }

  /** Two rooms that differ only in the values of votes the viewer may not
      see give that viewer the same stories list. */
  lemma StoriesSnapshotDoesNotLeak(s1: RoomState, s2: RoomState, viewer: UserUuid)
    requires s1.users == s2.users && s1.activeStory == s2.activeStory && |s1.stories| == |s2.stories|
    requires forall i :: 0 <= i < |s1.stories| ==>
      var a, b := s1.stories[i], s2.stories[i];
      && a.(votes := b.votes) == b
      && a.votes.Keys == b.votes.Keys
      && (viewer in a.votes ==> a.votes[viewer] == b.votes[viewer])
      && (Revealed(a, s1.users) ==> a.votes == b.votes)
    ensures StoriesSnapshot(s1, viewer) == StoriesSnapshot(s2, viewer)
  {
    var m1, m2 := StoriesSnapshot(s1, viewer), StoriesSnapshot(s2, viewer);
    forall i | 0 <= i < |s1.stories| ensures m1.stories[i] == m2.stories[i] {
      var a, b := s1.stories[i], s2.stories[i];
      if !Revealed(a, s1.users) {
        ConcealedVotesDoNotLeak(a, b, s1.users, viewer);
      }
    }
  }

  /** The message of broadcast `b` built for the user stored under `k`. */
  function MessageFor(s: RoomState, b: Broadcast, order: seq<UserUuid>, k: UserUuid): Payload
    requires k in s.users
    requires forall i :: 0 <= i < |order| ==> order[i] in s.users
  {
    match b
    case UsersUpdate => UsersPayload(UsersSnapshot(s.users, order, k))
    case StoriesUpdate => StoriesPayload(StoriesSnapshot(s, s.users[k].pubUserUuid))
  }

  /** The messages one broadcast sends: one per connected user, built for
      that user. */
  function Outbox(s: RoomState, b: Broadcast, order: seq<UserUuid>): map<UserUuid, Payload>
    requires IsEnumeration(order, s.users)
  {
    map k | k in s.users && s.users[k].connected :: MessageFor(s, b, order, k)
  }

  /** Right after a leave no broadcast addresses the leaver, and right after
      a join every broadcast addresses the joiner. */
  lemma OutboxFollowsConnections(s: RoomState, userId: UserUuid, freshPub: UserUuid, b: Broadcast,
                                 orderAfterLeave: seq<UserUuid>, orderAfterJoin: seq<UserUuid>)
    requires IsEnumeration(orderAfterLeave, LeaveSpec(s, userId).users)
    requires IsEnumeration(orderAfterJoin, JoinSpec(s, userId, freshPub).users)
    ensures userId !in Outbox(LeaveSpec(s, userId), b, orderAfterLeave)
    ensures userId in Outbox(JoinSpec(s, userId, freshPub), b, orderAfterJoin)
  {
  }

  /** The user stored under `userId` is unknown or has no open channel. */
  predicate Offline(s: RoomState, userId: UserUuid)
  {
    userId !in s.users || !s.users[userId].connected
  }

  /** Only a join of `userId` opens a channel for it. */
  lemma StepKeepsOffline(s: RoomState, e: Event, userId: UserUuid)
    requires WellFormed(e) && Offline(s, userId)
    requires !(e.Joined? && e.userId == userId)
    ensures Offline(Step(s, e), userId)
  {
  }

  lemma {:induction false} RunKeepsOffline(s: RoomState, es: seq<Event>, userId: UserUuid)
    requires forall i :: 0 <= i < |es| ==> WellFormed(es[i]) && !(es[i].Joined? && es[i].userId == userId)
    requires Offline(s, userId)
    ensures Offline(Run(s, es), userId)
    decreases |es|
  {
    if es != [] {
      StepKeepsOffline(s, es[0], userId);
      RunKeepsOffline(Step(s, es[0]), es[1..], userId);
    }
  }

  /** A user who has left receives no further snapshot, whatever happens in
      the room, until that user joins again. */
  lemma LeaverGetsNothingUntilRejoin(s: RoomState, userId: UserUuid, es: seq<Event>, b: Broadcast,
                                     order: seq<UserUuid>)
    requires forall i :: 0 <= i < |es| ==> WellFormed(es[i]) && !(es[i].Joined? && es[i].userId == userId)
    requires IsEnumeration(order, Run(LeaveSpec(s, userId), es).users)
    ensures userId !in Outbox(Run(LeaveSpec(s, userId), es), b, order)
  {
    RunKeepsOffline(LeaveSpec(s, userId), es, userId);
  }
}
