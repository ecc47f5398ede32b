/** The values the planning-poker server keeps per room: users, stories,
    votes and the decoded client commands. */
module PokerTypes {

  datatype Option<T> = None | Some(value: T)

  /** A user's private uuid (taken from the connection address) or the public
      uuid the server hands out; both are plain strings on the wire. */
  type UserUuid = string
  type StoryUuid = string

  datatype UserRole = Voter | Watcher

  /** A story is either still collecting votes or finished; there is no
      other state and no way back. */
  datatype StoryState = Voting | Finished

  /** A vote. The numeric estimate is an opaque payload: the server never
      computes with it. `Hidden` is the placeholder shown in place of a
      vote the viewer may not see yet. */
  datatype Vote = Value(estimate: int) | Coffee | Question | Hidden

  /** `connected` stands for the user's outbound channel being present
      (`sender` is `Some`): only connected users are sent snapshots. */
  datatype User = User(
    userUuid: UserUuid,
    pubUserUuid: UserUuid,
    userName: string,
    role: UserRole,
    isActive: bool,
    connected: bool)

  /** A first-time user: the given fresh public uuid, no name, a Voter,
      active and not yet connected. */
  function NewUser(userUuid: UserUuid, freshPub: UserUuid): User
  {
    User(userUuid, freshPub, "", Voter, true, false)
  }

  datatype Story = Story(
    storyUuid: StoryUuid,
    storyUrl: string,
    storyDescription: string,
    state: StoryState,
    votes: map<UserUuid, Vote>)

  datatype StoryItem = StoryItem(storyUrl: string, storyDescription: string)

  /** The verbs a client frame may start with. */
  datatype Verb = UserVerb | StoriesVerb | RemoveStoryVerb | VoteVerb | FinishVerb | ActiveStoryVerb
  {
    /** The frame prefix, the verb followed by one space. */
    function Prefix(): string
    {
      match this
      case UserVerb => "user "
      case StoriesVerb => "stories "
      case RemoveStoryVerb => "remove_story "
      case VoteVerb => "vote "
      case FinishVerb => "finish "
      case ActiveStoryVerb => "active_story "
    }

    /** The verbs only the room owner may use. */
    predicate OwnerOnly()
    {
      RemoveStoryVerb? || FinishVerb? || ActiveStoryVerb?
    }
  }

  /** A client command with its payload decoded. */
  datatype Command =
    | SetUser(userName: string, role: UserRole)
    | AddStories(items: seq<StoryItem>)
    | RemoveStory(removed: StoryUuid)
    | CastVote(voted: StoryUuid, vote: Vote)
    | FinishVoting(finished: StoryUuid)
    | SetActiveStory(active: StoryUuid)
  {
    function Verb(): Verb
    {
      match this
      case SetUser(_, _) => UserVerb
      case AddStories(_) => StoriesVerb
      case RemoveStory(_) => RemoveStoryVerb
      case CastVote(_, _) => VoteVerb
      case FinishVoting(_) => FinishVerb
      case SetActiveStory(_) => ActiveStoryVerb
    }
  }

  /** Which snapshot a handler broadcasts to every connected user. */
  datatype Broadcast = UsersUpdate | StoriesUpdate
}
