/** The per-room state machine as pure functions: what a join, a leave and
    each client command do to the room, and which snapshot they broadcast. */
module RoomSpec {
  import opened PokerTypes
  import opened Protocol

  /** Everything the server keeps for one room (its creation time aside). */
  datatype RoomState = RoomState(
    users: map<UserUuid, User>,         // keyed by private user uuid
    stories: seq<Story>,
    owner: Option<UserUuid>,            // a public user uuid
    activeStory: Option<StoryUuid>)

  /** A room as it is created, before anybody has joined. */
  function EmptyRoom(): RoomState
  {
    RoomState(map[], [], None, None)
  }

  /** The new room state and the snapshot broadcast, if any. */
  datatype Reaction = Reaction(room: RoomState, sent: Option<Broadcast>)

  function PubIds(users: map<UserUuid, User>): set<UserUuid>
  {
    set k | k in users :: users[k].pubUserUuid
  }

  predicate StoryUuidsDistinct(stories: seq<Story>)
  {
    forall i, j :: 0 <= i < j < |stories| ==> stories[i].storyUuid != stories[j].storyUuid
  }

  /** The room invariant: users are stored under their own private uuid and
      have distinct public uuids; the room has an owner, one of its users,
      exactly when somebody has joined; story uuids are distinct; and every
      vote is keyed by the public uuid of a user of the room. */
  predicate Valid(s: RoomState)
  {
    && (forall k :: k in s.users ==> s.users[k].userUuid == k)
    && (forall a, b :: a in s.users && b in s.users && a != b ==> s.users[a].pubUserUuid != s.users[b].pubUserUuid)
    && (s.owner.None? <==> s.users == map[])
    && (s.owner.Some? ==> s.owner.value in PubIds(s.users))
    && StoryUuidsDistinct(s.stories)
    && (forall t, p :: t in s.stories && p in t.votes ==> p in PubIds(s.users))
  }

  // ---------------------------------------------------------------------
  // Looking up and removing stories

  /** The position of the first story with uuid `id`, as a search from the
      front of the list finds it. */
  function IndexOf(stories: seq<Story>, id: StoryUuid): (r: Option<nat>)
    ensures r.Some? ==> r.value < |stories| && stories[r.value].storyUuid == id
    ensures r.Some? ==> forall j :: 0 <= j < r.value ==> stories[j].storyUuid != id
    ensures r.None? ==> forall j :: 0 <= j < |stories| ==> stories[j].storyUuid != id
  {
    if stories == [] then None
    else if stories[0].storyUuid == id then Some(0)
    else match IndexOf(stories[1..], id)
      case None => None
      case Some(i) => Some(i + 1)
  }

  /** The state of the story a lookup of `id` finds, if any. */
  function StateOf(stories: seq<Story>, id: StoryUuid): Option<StoryState>
  {
    match IndexOf(stories, id)
    case None => None
    case Some(i) => Some(stories[i].state)
  }

  /** The stories whose uuid is not `id`, in their original order. */
  function Retain(stories: seq<Story>, id: StoryUuid): seq<Story>
  {
    if stories == [] then []
    else (if stories[0].storyUuid == id then [] else [stories[0]]) + Retain(stories[1..], id)
  }

  /** Removing the stories with uuid `id` drops every copy of each of them
      and keeps every other story as many times as it occurred. */
  lemma {:induction false} RetainCounts(stories: seq<Story>, id: StoryUuid)
    ensures forall t :: multiset(Retain(stories, id))[t] == if t.storyUuid == id then 0 else multiset(stories)[t]
  {
    if stories != [] {
      RetainCounts(stories[1..], id);
      assert stories == [stories[0]] + stories[1..];
    }
  }

  /** The list gets shorter exactly when some story has uuid `id`. */
  lemma {:induction false} RetainLength(stories: seq<Story>, id: StoryUuid)
    ensures |Retain(stories, id)| <= |stories|
    ensures |Retain(stories, id)| == |stories| <==> IndexOf(stories, id).None?
  {
    if stories != [] {
      RetainLength(stories[1..], id);
    }
  }

  /** Removing stories keeps relative order: it works piecewise on any split
      of the list. */
  lemma {:induction false} RetainConcat(a: seq<Story>, b: seq<Story>, id: StoryUuid)
    ensures Retain(a + b, id) == Retain(a, id) + Retain(b, id)
  {
    if a == [] {
      assert a + b == b;
    } else {
      var head := if a[0].storyUuid == id then [] else [a[0]];
      RetainConcat(a[1..], b, id);
      calc {
        Retain(a + b, id);
      == { assert (a + b)[0] == a[0] && (a + b)[1..] == a[1..] + b; }
        head + Retain(a[1..] + b, id);
      ==
        head + (Retain(a[1..], id) + Retain(b, id));
      ==
        (head + Retain(a[1..], id)) + Retain(b, id);
      }
    }
  }

  /** Removing the stories with uuid `id` does not change what a lookup of
      any other uuid finds. */
  lemma {:induction false} RetainKeepsOtherLookups(stories: seq<Story>, id: StoryUuid, other: StoryUuid)
    requires other != id
    ensures StateOf(Retain(stories, id), other) == StateOf(stories, other)
  {
    if stories != [] {
      RetainKeepsOtherLookups(stories[1..], id, other);
      var rest := Retain(stories[1..], id);
      if stories[0].storyUuid == id {
        assert Retain(stories, id) == rest;
      } else {
        assert Retain(stories, id) == [stories[0]] + rest;
        assert ([stories[0]] + rest)[1..] == rest;
      }
    }
  }

  /** Removing stories from a list with distinct uuids leaves distinct uuids. */
  lemma {:induction false} RetainKeepsDistinct(stories: seq<Story>, id: StoryUuid)
    requires StoryUuidsDistinct(stories)
    ensures StoryUuidsDistinct(Retain(stories, id))
  {
    if stories != [] {
      RetainKeepsDistinct(stories[1..], id);
      var rest := Retain(stories[1..], id);
      if stories[0].storyUuid != id {
        RetainCounts(stories[1..], id);
        forall t | t in rest ensures t.storyUuid != stories[0].storyUuid {
          assert multiset(rest)[t] > 0;
          assert t in stories[1..];
        }
        var r := [stories[0]] + rest;
        forall i, j | 0 <= i < j < |r| ensures r[i].storyUuid != r[j].storyUuid {
          if i == 0 { assert r[j] == rest[j - 1]; assert r[j] in rest; }
          else { assert r[i] == rest[i - 1] && r[j] == rest[j - 1]; }
        }
      }
    }
  }

  // ---------------------------------------------------------------------
  // The handlers

  function NewStory(item: StoryItem, id: StoryUuid): Story
  {
    Story(id, item.storyUrl, item.storyDescription, Voting, map[])
  }

  /** One new story per item, in order, each with its own fresh uuid. */
  function NewStories(items: seq<StoryItem>, newIds: seq<StoryUuid>): seq<Story>
    requires |newIds| == |items|
  {
    seq(|items|, i requires 0 <= i < |items| => NewStory(items[i], newIds[i]))
  }

  /** The fresh story uuids cover every item of a `stories` command. */
  predicate EnoughIds(parsed: Option<Command>, newIds: seq<StoryUuid>)
  {
    parsed.Some? && parsed.value.AddStories? ==> |newIds| == |parsed.value.items|
  }

  /** A first join creates the user; every join marks the user active and
      connected, and the first user of the room becomes its owner. */
  function JoinSpec(s: RoomState, userId: UserUuid, freshPub: UserUuid): RoomState
  {
    var u := if userId in s.users then s.users[userId] else NewUser(userId, freshPub);
    s.(users := s.users[userId := u.(connected := true, isActive := true)],
       owner := if s.owner.None? then Some(u.pubUserUuid) else s.owner)
  }

  /** A closed connection leaves the user in the room, inactive and without
      a channel. */
  function LeaveSpec(s: RoomState, userId: UserUuid): RoomState
  {
    if userId in s.users then
      s.(users := s.users[userId := s.users[userId].(isActive := false, connected := false)])
    else s
  }

  function ApplySetUser(s: RoomState, userId: UserUuid, name: string, role: UserRole): Reaction
  {
    var users := if userId in s.users then s.users[userId := s.users[userId].(userName := name, role := role)] else s.users;
    Reaction(s.(users := users), Some(UsersUpdate))
  }

  function ApplyAddStories(s: RoomState, items: seq<StoryItem>, newIds: seq<StoryUuid>): Reaction
    requires |newIds| == |items|
  {
    Reaction(s.(stories := s.stories + NewStories(items, newIds)), Some(StoriesUpdate))
  }

  function ApplyRemoveStory(s: RoomState, id: StoryUuid): Reaction
  {
    var kept := Retain(s.stories, id);
    Reaction(s.(stories := kept), if |kept| != |s.stories| then Some(StoriesUpdate) else None)
  }

  function ApplyVote(s: RoomState, userId: UserUuid, id: StoryUuid, v: Vote): Reaction
  {
    match IndexOf(s.stories, id)
    case None => Reaction(s, None)
    case Some(i) =>
      if s.stories[i].state == Voting && userId in s.users then
        var st := s.stories[i];
        Reaction(s.(stories := s.stories[i := st.(votes := st.votes[s.users[userId].pubUserUuid := v])]), Some(StoriesUpdate))
      else Reaction(s, None)
  }

  function ApplyFinish(s: RoomState, id: StoryUuid): Reaction
  {
    match IndexOf(s.stories, id)
    case None => Reaction(s, None)
    case Some(i) => Reaction(s.(stories := s.stories[i := s.stories[i].(state := Finished)]), Some(StoriesUpdate))
  }

  function ApplySetActive(s: RoomState, id: StoryUuid): Reaction
  {
    Reaction(s.(activeStory := Some(id)), Some(StoriesUpdate))
  }

  function Apply(s: RoomState, userId: UserUuid, cmd: Command, newIds: seq<StoryUuid>): Reaction
    requires cmd.AddStories? ==> |newIds| == |cmd.items|
  {
    match cmd
    case SetUser(name, role) => ApplySetUser(s, userId, name, role)
    case AddStories(items) => ApplyAddStories(s, items, newIds)
    case RemoveStory(id) => ApplyRemoveStory(s, id)
    case CastVote(id, v) => ApplyVote(s, userId, id, v)
    case FinishVoting(id) => ApplyFinish(s, id)
    case SetActiveStory(id) => ApplySetActive(s, id)
  }

  /** One client frame from the connection of `userId` (whose public uuid is
      `pub`): unknown or skipped frames do nothing, owner-only verbs from
      anybody but the owner do nothing, a payload that failed to decode does
      nothing, and a decoded command is applied. */
  function Dispatch(s: RoomState, userId: UserUuid, pub: UserUuid, frame: Frame, parsed: Option<Command>,
                    newIds: seq<StoryUuid>): Reaction
    requires Decodes(frame, parsed) && EnoughIds(parsed, newIds)
  {
    match Route(frame)
    case Skip => Reaction(s, None)
    case Unsupported => Reaction(s, None)
    case Routed(verb, _) =>
      if verb.OwnerOnly() && s.owner != Some(pub) then Reaction(s, None)
      else match parsed
        case None => Reaction(s, None)
        case Some(cmd) => Apply(s, userId, cmd, newIds)
  }

  // ---------------------------------------------------------------------
  // Runs of events

  datatype Event =
    | Joined(userId: UserUuid, freshPub: UserUuid)
    | Left(userId: UserUuid)
    | Received(userId: UserUuid, pub: UserUuid, frame: Frame, parsed: Option<Command>, newIds: seq<StoryUuid>)

  predicate WellFormed(e: Event)
  {
    e.Received? ==> Decodes(e.frame, e.parsed) && EnoughIds(e.parsed, e.newIds)
  }

  function Step(s: RoomState, e: Event): RoomState
    requires WellFormed(e)
  {
    match e
    case Joined(userId, freshPub) => JoinSpec(s, userId, freshPub)
    case Left(userId) => LeaveSpec(s, userId)
    case Received(userId, pub, frame, parsed, newIds) => Dispatch(s, userId, pub, frame, parsed, newIds).room
  }

  function Run(s: RoomState, es: seq<Event>): RoomState
    requires forall i :: 0 <= i < |es| ==> WellFormed(es[i])
    decreases |es|
  {
    if es == [] then s else Run(Step(s, es[0]), es[1..])
  }

  /** What the server guarantees about an event: a joiner's fresh public
      uuid is not used in the room, fresh story uuids are distinct and
      unused, and a frame comes from a joined user together with that user's
      public uuid. */
  predicate Admissible(s: RoomState, e: Event)
  {
    match e
    case Joined(_, freshPub) => freshPub !in PubIds(s.users)
    case Left(_) => true
    case Received(userId, pub, _, _, newIds) =>
      && userId in s.users && s.users[userId].pubUserUuid == pub
      && FreshStoryIds(s, newIds)
  }

  /** Fresh story uuids are distinct and name no story of the room. */
  predicate FreshStoryIds(s: RoomState, newIds: seq<StoryUuid>)
  {
    && (forall i, j :: 0 <= i < j < |newIds| ==> newIds[i] != newIds[j])
    && (forall i, t :: 0 <= i < |newIds| && t in s.stories ==> newIds[i] != t.storyUuid)
  }

  predicate AdmissibleRun(s: RoomState, es: seq<Event>)
    decreases |es|
  {
    es == [] || (WellFormed(es[0]) && Admissible(s, es[0]) && AdmissibleRun(Step(s, es[0]), es[1..]))
  }
}
