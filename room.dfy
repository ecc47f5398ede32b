/** The room as the server holds it: an object whose handlers update its
    fields in place, each proved to do what `RoomSpec` says and to keep the
    room invariant. */
module Server {
  import opened PokerTypes
  import opened Protocol
  import opened RoomSpec
  import opened Snapshots
  import RoomInvariant

  class Room {
    var users: map<UserUuid, User>     // keyed by private user uuid
    var stories: seq<Story>
    var owner: Option<UserUuid>        // a public user uuid
    var activeStory: Option<StoryUuid>

    /** The abstract value of the room. */
    function State(): RoomState
      reads this
    {
      RoomState(users, stories, owner, activeStory)
    }

    ghost predicate Valid()
      reads this
    {
      RoomSpec.Valid(State())
    }

    /** A room with no users, no stories, no owner and no active story. */
    constructor ()
      ensures Valid() && State() == EmptyRoom()
    {
      users, stories, owner, activeStory := map[], [], None, None;
    }

    /** Builds broadcast `b`: walks the users in map order and addresses a
        message, built for that user, to every user with an open channel. */
    method SendUpdate(b: Broadcast, order: seq<UserUuid>) returns (outbox: map<UserUuid, Payload>)
      requires IsEnumeration(order, users)
      ensures outbox == Outbox(State(), b, order)
    {
      outbox := map[];
      for i := 0 to |order|
        invariant forall k :: k in outbox <==> k in order[..i] && users[k].connected
        invariant forall k :: k in outbox ==> outbox[k] == MessageFor(State(), b, order, k)
      {
        var user := users[order[i]];
        if user.connected {
          outbox := outbox[order[i] := MessageFor(State(), b, order, order[i])];
        }
      }
      assert order[..|order|] == order;
    }

    /** A connection of `userId` opens: the user is created with the fresh
        public uuid if new, made active and connected, and becomes the owner
        if the room has none. The joiner gets the room's owner and its own
        public uuid, then the users and stories snapshots go to everybody. */
    method Join(userId: UserUuid, freshPub: UserUuid) returns (config: Payload, sent: seq<Broadcast>)
      requires Valid() && freshPub !in PubIds(users)
      modifies this
      ensures Valid()
      ensures State() == JoinSpec(old(State()), userId, freshPub)
      ensures owner.Some? && userId in users
      ensures config == ConfigPayload(owner.value, users[userId].pubUserUuid)
      ensures sent == [UsersUpdate, StoriesUpdate]
    {
      if userId !in users {
        users := users[userId := NewUser(userId, freshPub)];
      }
      var user := users[userId];
      user := user.(connected := true);
      user := user.(isActive := true);
      users := users[userId := user];
      var pub := user.pubUserUuid;
      var roomOwner: UserUuid;
      match owner {
        case None =>
          owner := Some(pub);
          roomOwner := pub;
        case Some(o) =>
          roomOwner := o;
      }
      config := ConfigPayload(roomOwner, pub);
      sent := [UsersUpdate, StoriesUpdate];
      assert State() == JoinSpec(old(State()), userId, freshPub);
      RoomInvariant.JoinKeepsValid(old(State()), userId, freshPub);
    }

    /** The connection of `userId` closes: the user stays, inactive and
        without a channel, and the users snapshot goes to everybody. */
    method Leave(userId: UserUuid) returns (sent: Broadcast)
      requires Valid()
      modifies this
      ensures Valid()
      ensures State() == LeaveSpec(old(State()), userId)
      ensures sent == UsersUpdate
    {
      if userId in users {
        var user := users[userId];
        user := user.(isActive := false);
        user := user.(connected := false);
        users := users[userId := user];
      }
      sent := UsersUpdate;
      RoomInvariant.LeaveKeepsValid(old(State()), userId);
    }

    /** One frame from the connection of `userId`, whose public uuid is `pub`;
        `parsed` is its payload as decoded, if it decoded. */
    method ClientMsg(userId: UserUuid, pub: UserUuid, frame: Frame, parsed: Option<Command>,
                     newIds: seq<StoryUuid>) returns (sent: Option<Broadcast>)
      requires Valid() && Decodes(frame, parsed) && EnoughIds(parsed, newIds) && FreshStoryIds(State(), newIds)
      modifies this
      ensures Valid()
      ensures Reaction(State(), sent) == Dispatch(old(State()), userId, pub, frame, parsed, newIds)
    {
      var routed := Route(frame);
      if !routed.Routed? {
        sent := None;
        return;
      }
      if routed.verb.OwnerOnly() && owner != Some(pub) {
        sent := None;
        return;
      }
      if parsed.None? {
        sent := None;
        return;
      }
      match parsed.value
      case SetUser(name, role) => sent := SetUser(userId, name, role);
      case AddStories(items) => sent := AddStories(items, newIds);
      case RemoveStory(id) => sent := RemoveStory(id);
      case CastVote(id, v) => sent := CastVote(userId, id, v);
      case FinishVoting(id) => sent := FinishVoting(id);
      case SetActiveStory(id) => sent := SetActiveStory(id);
    }

    method SetUser(userId: UserUuid, name: string, role: UserRole) returns (sent: Option<Broadcast>)
      requires Valid()
      modifies this
      ensures Valid()
      ensures Reaction(State(), sent) == ApplySetUser(old(State()), userId, name, role)
    {
      if userId in users {
        var user := users[userId];
        user := user.(userName := name);
        user := user.(role := role);
        users := users[userId := user];
      }
      sent := Some(UsersUpdate);
      RoomInvariant.SetUserKeepsValid(old(State()), userId, name, role);
    }

    /** Pushes one new Voting story per item, in order. */
    method AddStories(items: seq<StoryItem>, newIds: seq<StoryUuid>) returns (sent: Option<Broadcast>)
      requires Valid() && |newIds| == |items| && FreshStoryIds(State(), newIds)
      modifies this
      ensures Valid()
      ensures Reaction(State(), sent) == ApplyAddStories(old(State()), items, newIds)
    {
      for i := 0 to |items|
        invariant stories == old(stories) + NewStories(items[..i], newIds[..i])
        invariant users == old(users) && owner == old(owner) && activeStory == old(activeStory)
      {
        stories := stories + [Story(newIds[i], items[i].storyUrl, items[i].storyDescription, Voting, map[])];
        assert NewStories(items[..i + 1], newIds[..i + 1]) ==
               NewStories(items[..i], newIds[..i]) + [NewStory(items[i], newIds[i])];
      }
      assert items[..|items|] == items && newIds[..|items|] == newIds;
      sent := Some(StoriesUpdate);
      RoomInvariant.AddStoriesKeepsValid(old(State()), items, newIds);
    }

    /** Keeps, in order, the stories whose uuid is not `id`. */
    method RemoveStory(id: StoryUuid) returns (sent: Option<Broadcast>)
      requires Valid()
      modifies this
      ensures Valid()
      ensures Reaction(State(), sent) == ApplyRemoveStory(old(State()), id)
    {
      var all := stories;
      var oldLen := |all|;
      var kept: seq<Story> := [];
      for i := 0 to |all|
        invariant kept == Retain(all[..i], id)
        invariant State() == old(State())
      {
        assert all[..i + 1] == all[..i] + [all[i]];
        RetainConcat(all[..i], [all[i]], id);
        if all[i].storyUuid != id {
          kept := kept + [all[i]];
        }
      }
      assert all[..|all|] == all;
      stories := kept;
      sent := if |stories| != oldLen then Some(StoriesUpdate) else None;
      RoomInvariant.RemoveStoryKeepsValid(old(State()), id);
    }

    method CastVote(userId: UserUuid, id: StoryUuid, v: Vote) returns (sent: Option<Broadcast>)
      requires Valid()
      modifies this
      ensures Valid()
      ensures Reaction(State(), sent) == ApplyVote(old(State()), userId, id, v)
    {
      sent := None;
      var found := IndexOf(stories, id);
      if found.Some? {
        var i := found.value;
        if stories[i].state == Voting {
          if userId in users {
            var story := stories[i];
            story := story.(votes := story.votes[users[userId].pubUserUuid := v]);
            stories := stories[i := story];
            sent := Some(StoriesUpdate);
          }
        }
      }
      RoomInvariant.VoteKeepsValid(old(State()), userId, id, v);
    }

    method FinishVoting(id: StoryUuid) returns (sent: Option<Broadcast>)
      requires Valid()
      modifies this
      ensures Valid()
      ensures Reaction(State(), sent) == ApplyFinish(old(State()), id)
    {
      sent := None;
      var found := IndexOf(stories, id);
      if found.Some? {
        var i := found.value;
        stories := stories[i := stories[i].(state := Finished)];
        sent := Some(StoriesUpdate);
      }
      RoomInvariant.FinishKeepsValid(old(State()), id);
    }

    method SetActiveStory(id: StoryUuid) returns (sent: Option<Broadcast>)
      requires Valid()
      modifies this
      ensures Valid()
      ensures Reaction(State(), sent) == ApplySetActive(old(State()), id)
    {
      activeStory := Some(id);
      sent := Some(StoriesUpdate);
    }
  }
}
