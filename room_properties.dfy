/** What the room handlers guarantee: owner gating, the effect of each
    command, Finished being terminal, the owner never changing, and the
    room invariant being kept by every admissible event. */
module RoomProperties {
  import opened PokerTypes
  import opened Protocol
  import opened RoomSpec

  // ---------------------------------------------------------------------
  // Frames that do nothing

  /** `remove_story`, `finish` and `active_story` from anybody but the owner
      leave the room unchanged and broadcast nothing, whatever the payload. */
  lemma NonOwnerIsIgnored(s: RoomState, userId: UserUuid, pub: UserUuid, frame: Frame,
                          parsed: Option<Command>, newIds: seq<StoryUuid>)
    requires Decodes(frame, parsed) && EnoughIds(parsed, newIds)
    requires Route(frame).Routed? && Route(frame).verb.OwnerOnly()
    requires s.owner != Some(pub)
    ensures Dispatch(s, userId, pub, frame, parsed, newIds) == Reaction(s, None)
  {
  }

  /** A non-text frame, a ping, an unknown verb or a payload that does not
      decode leaves the room unchanged and broadcasts nothing. */
  lemma UndecodedFrameIsIgnored(s: RoomState, userId: UserUuid, pub: UserUuid, frame: Frame,
                                newIds: seq<StoryUuid>)
    ensures Dispatch(s, userId, pub, frame, None, newIds) == Reaction(s, None)
  {
  }

  /** For a frame of a joined user, an owner-only command changes the room
      only when that user is the owner. */
  lemma OnlyOwnerUsesOwnerVerbs(s: RoomState, userId: UserUuid, frame: Frame, cmd: Command,
                                newIds: seq<StoryUuid>)
    requires userId in s.users
    requires Decodes(frame, Some(cmd)) && cmd.Verb().OwnerOnly()
    ensures Dispatch(s, userId, s.users[userId].pubUserUuid, frame, Some(cmd), newIds).room != s ==>
            s.owner == Some(s.users[userId].pubUserUuid)
  {
  }

  // ---------------------------------------------------------------------
  // Lookups

  /** Appending stories does not change what a lookup of a uuid already
      present finds. */
  lemma {:induction false} IndexOfAppend(a: seq<Story>, b: seq<Story>, id: StoryUuid)
    requires IndexOf(a, id).Some?
    ensures IndexOf(a + b, id) == IndexOf(a, id)
  {
    if a[0].storyUuid != id {
      assert (a + b)[1..] == a[1..] + b;
      IndexOfAppend(a[1..], b, id);
    }
  }

  /** A lookup only looks at uuids: two lists with the same uuids at the
      same positions give the same answer. */
  lemma {:induction false} IndexOfSameUuids(a: seq<Story>, b: seq<Story>, id: StoryUuid)
    requires |a| == |b| && forall j :: 0 <= j < |a| ==> a[j].storyUuid == b[j].storyUuid
    ensures IndexOf(a, id) == IndexOf(b, id)
  {
    if a != [] && a[0].storyUuid != id {
      IndexOfSameUuids(a[1..], b[1..], id);
    }
  }

  /** After removing the stories with uuid `id` a lookup of `id` finds nothing. */
  lemma RetainRemovesLookup(stories: seq<Story>, id: StoryUuid)
    ensures IndexOf(Retain(stories, id), id).None?
  {
    var r := Retain(stories, id);
    RetainCounts(stories, id);
    forall j | 0 <= j < |r| ensures r[j].storyUuid != id {
      assert multiset(r)[r[j]] > 0;
    }
  }

  // ---------------------------------------------------------------------
  // The commands one by one

  /** A vote is recorded only for an existing story that is still Voting and
      a known user; it is keyed by that user's public uuid, overwrites an
      earlier vote of theirs and changes nothing else. Otherwise the room is
      left unchanged and nothing is broadcast. */
  lemma VoteRecordedOnlyWhileVoting(s: RoomState, userId: UserUuid, id: StoryUuid, v: Vote)
    ensures var r := ApplyVote(s, userId, id, v);
      && (r.sent.Some? <==> StateOf(s.stories, id) == Some(Voting) && userId in s.users)
      && (r.sent.None? ==> r.room == s)
      && (r.sent.Some? ==>
            var i := IndexOf(s.stories, id).value;
            && r.sent == Some(StoriesUpdate)
            && r.room.users == s.users && r.room.owner == s.owner && r.room.activeStory == s.activeStory
            && |r.room.stories| == |s.stories|
            && (forall j :: 0 <= j < |s.stories| && j != i ==> r.room.stories[j] == s.stories[j])
            && r.room.stories[i].votes.Keys == s.stories[i].votes.Keys + {s.users[userId].pubUserUuid}
            && r.room.stories[i].votes[s.users[userId].pubUserUuid] == v
            && (forall p :: p in s.stories[i].votes && p != s.users[userId].pubUserUuid ==>
                  r.room.stories[i].votes[p] == s.stories[i].votes[p])
            && r.room.stories[i].(votes := s.stories[i].votes) == s.stories[i])
  {
  }

  /** An owner's `finish` of a known story turns exactly the stories with
      that uuid into Finished and changes nothing else; an unknown uuid
      changes nothing and broadcasts nothing. */
  lemma FinishFinishesExactlyThatStory(s: RoomState, id: StoryUuid)
    requires StoryUuidsDistinct(s.stories)
    ensures var r := ApplyFinish(s, id);
      && (r.sent.Some? <==> exists j :: 0 <= j < |s.stories| && s.stories[j].storyUuid == id)
      && r.room.users == s.users && r.room.owner == s.owner && r.room.activeStory == s.activeStory
      && |r.room.stories| == |s.stories|
      && forall j :: 0 <= j < |s.stories| ==>
           r.room.stories[j] == if s.stories[j].storyUuid == id then s.stories[j].(state := Finished) else s.stories[j]
  {
    var r := ApplyFinish(s, id);
    match IndexOf(s.stories, id)
    case None =>
    case Some(i) =>
      forall j | 0 <= j < |s.stories|
        ensures r.room.stories[j] == if s.stories[j].storyUuid == id then s.stories[j].(state := Finished) else s.stories[j]
      {
        if j != i {
          assert s.stories[j].storyUuid != s.stories[i].storyUuid;
        }
      }
  }

  /** `stories` appends one new story per item, in order, each Voting with
      no votes and its own fresh uuid; the existing stories stay as they are
      and in front. */
  lemma AddStoriesAppendsInOrder(s: RoomState, items: seq<StoryItem>, newIds: seq<StoryUuid>)
    requires |newIds| == |items|
    ensures var r := ApplyAddStories(s, items, newIds);
      && r.sent == Some(StoriesUpdate)
      && r.room.users == s.users && r.room.owner == s.owner && r.room.activeStory == s.activeStory
      && |r.room.stories| == |s.stories| + |items|
      && r.room.stories[..|s.stories|] == s.stories
      && forall i :: 0 <= i < |items| ==>
           var t := r.room.stories[|s.stories| + i];
           t.storyUuid == newIds[i] && t.storyUrl == items[i].storyUrl &&
           t.storyDescription == items[i].storyDescription && t.state == Voting && t.votes == map[]
  {
  }

  /** An owner's `remove_story` drops exactly the stories with that uuid and
      keeps the others, in their relative order; a snapshot is broadcast
      exactly when some story was dropped. */
  lemma RemoveStoryRemovesExactlyThose(s: RoomState, id: StoryUuid, front: seq<Story>, back: seq<Story>)
    requires s.stories == front + back
    ensures var r := ApplyRemoveStory(s, id);
      && (r.sent.Some? <==> exists j :: 0 <= j < |s.stories| && s.stories[j].storyUuid == id)
      && r.room.users == s.users && r.room.owner == s.owner && r.room.activeStory == s.activeStory
      && (forall t :: multiset(r.room.stories)[t] == if t.storyUuid == id then 0 else multiset(s.stories)[t])
      && r.room.stories == Retain(front, id) + Retain(back, id)
  {
    RetainLength(s.stories, id);
    RetainCounts(s.stories, id);
    RetainConcat(front, back, id);
    if exists j :: 0 <= j < |s.stories| && s.stories[j].storyUuid == id {
      assert IndexOf(s.stories, id).Some?;
    }
  }

  /** An `active_story` frame from the owner sets the active story to the
      given uuid, whether or not a story has it, leaves users, stories and
      owner alone, and always broadcasts the stories snapshot. */
  lemma SetActiveSetsIt(s: RoomState, userId: UserUuid, pub: UserUuid, frame: Frame, id: StoryUuid,
                        newIds: seq<StoryUuid>)
    requires Decodes(frame, Some(SetActiveStory(id))) && s.owner == Some(pub)
    ensures var r := Dispatch(s, userId, pub, frame, Some(SetActiveStory(id)), newIds);
      && r.sent == Some(StoriesUpdate)
      && r.room.activeStory == Some(id)
      && r.room.users == s.users && r.room.stories == s.stories && r.room.owner == s.owner
  {
  }

  /** `user` renames and re-roles the sender if known, touches nobody else,
      and always broadcasts the users snapshot. */
  lemma SetUserChangesOnlySender(s: RoomState, userId: UserUuid, name: string, role: UserRole)
    ensures var r := ApplySetUser(s, userId, name, role);
      && r.sent == Some(UsersUpdate)
      && r.room.stories == s.stories && r.room.owner == s.owner && r.room.activeStory == s.activeStory
      && r.room.users.Keys == s.users.Keys
      && (forall k :: k in s.users && k != userId ==> r.room.users[k] == s.users[k])
      && (userId in s.users ==> r.room.users[userId] == s.users[userId].(userName := name, role := role))
  {
  }

  // ---------------------------------------------------------------------
  // Join and leave

  /** A join keeps every other user, makes the joiner active and connected,
      keeps a returning user's identity and name, and gives a new user the
      fresh public uuid; the first joiner becomes the owner and an existing
      owner stays. */
  lemma JoinEffect(s: RoomState, userId: UserUuid, freshPub: UserUuid)
    ensures var r := JoinSpec(s, userId, freshPub);
      && r.users.Keys == s.users.Keys + {userId}
      && r.users[userId].isActive && r.users[userId].connected
      && (userId in s.users ==> r.users[userId] == s.users[userId].(isActive := true, connected := true))
      && (userId !in s.users ==>
            r.users[userId] == User(userId, freshPub, "", Voter, true, true))
      && (forall k :: k in s.users && k != userId ==> r.users[k] == s.users[k])
      && (s.owner.None? ==> r.owner == Some(r.users[userId].pubUserUuid))
      && (s.owner.Some? ==> r.owner == s.owner)
      && r.stories == s.stories && r.activeStory == s.activeStory
  {
  }

  /** A leave only switches the leaving user to inactive and disconnected. */
  lemma LeaveEffect(s: RoomState, userId: UserUuid)
    ensures var r := LeaveSpec(s, userId);
      && r.users.Keys == s.users.Keys
      && (userId in s.users ==> r.users[userId] == s.users[userId].(isActive := false, connected := false))
      && (forall k :: k in s.users && k != userId ==> r.users[k] == s.users[k])
      && r.stories == s.stories && r.owner == s.owner && r.activeStory == s.activeStory
  {
  }

  // ---------------------------------------------------------------------
  // Properties of every event and of runs

  /** Once a room has an owner, no event changes it. */
  lemma StepKeepsOwner(s: RoomState, e: Event)
    requires WellFormed(e) && s.owner.Some?
    ensures Step(s, e).owner == s.owner
  {
  }

  lemma {:induction false} OwnerNeverChanges(s: RoomState, es: seq<Event>)
    requires forall i :: 0 <= i < |es| ==> WellFormed(es[i])
    requires s.owner.Some?
    ensures Run(s, es).owner == s.owner
    decreases |es|
  {
    if es != [] {
      StepKeepsOwner(s, es[0]);
      OwnerNeverChanges(Step(s, es[0]), es[1..]);
    }
  }

  /** The user who opens a room owns it for good. */
  lemma FirstJoinerOwnsForever(userId: UserUuid, freshPub: UserUuid, es: seq<Event>)
    requires forall i :: 0 <= i < |es| ==> WellFormed(es[i])
    ensures Run(EmptyRoom(), [Joined(userId, freshPub)] + es).owner == Some(freshPub)
  {
    var evs := [Joined(userId, freshPub)] + es;
    assert evs[1..] == es;
    OwnerNeverChanges(JoinSpec(EmptyRoom(), userId, freshPub), es);
  }

  /** The event is a decoded `remove_story` of `id`. */
  predicate RemovesStory(e: Event, id: StoryUuid)
  {
    e.Received? && e.parsed == Some(RemoveStory(id))
  }

  /** A Finished story never goes back to Voting: after any event a lookup
      of its uuid still finds it Finished, or else the event was a
      `remove_story` of it and no story with that uuid is left. */
  lemma StepKeepsFinished(s: RoomState, e: Event, id: StoryUuid)
    requires WellFormed(e)
    requires StateOf(s.stories, id) == Some(Finished)
    ensures var after := StateOf(Step(s, e).stories, id);
      after == Some(Finished) || (RemovesStory(e, id) && after.None?)
  {
    if RemovesStory(e, id) && Step(s, e).stories != s.stories {
      RetainRemovesLookup(s.stories, id);
    }
    if e.Received? && e.parsed.Some? && !RemovesStory(e, id) {
      var t := Step(s, e).stories;
      assert t == s.stories || t == Apply(s, e.userId, e.parsed.value, e.newIds).room.stories;
      if t != s.stories {
        match e.parsed.value
        case SetUser(_, _) =>
        case AddStories(items) =>
          IndexOfAppend(s.stories, NewStories(items, e.newIds), id);
        case RemoveStory(removed) =>
          RetainKeepsOtherLookups(s.stories, removed, id);
        case CastVote(voted, v) =>
          IndexOfSameUuids(s.stories, t, id);
        case FinishVoting(finished) =>
          IndexOfSameUuids(s.stories, t, id);
        case SetActiveStory(_) =>
      }
    }
  }

  /** Finished is terminal: a Finished story stays Finished through any run
      of events with no decoded `remove_story` frame of its uuid (not even
      one the owner check would reject). */
  lemma {:induction false} FinishedIsTerminal(s: RoomState, es: seq<Event>, id: StoryUuid)
    requires forall i :: 0 <= i < |es| ==> WellFormed(es[i]) && !RemovesStory(es[i], id)
    requires StateOf(s.stories, id) == Some(Finished)
    ensures StateOf(Run(s, es).stories, id) == Some(Finished)
    decreases |es|
  {
    if es != [] {
      StepKeepsFinished(s, es[0], id);
      FinishedIsTerminal(Step(s, es[0]), es[1..], id);
    }
  }
}
