# Planning-poker room server, modelled in Dafny

This project models the core of a planning-poker WebSocket server written in
Rust (`src/main.rs`). The server keeps one state machine per room. Every
client frame drives that state machine under one write lock. The room
holds:

- the users, keyed by their private uuid, each with a public uuid, a name, a
  role (Voter or Watcher), an activity flag and, while connected, an
  outbound channel;
- the ordered list of stories, each with a uuid, url, description, a state
  (Voting or Finished) and the votes keyed by the voters' public uuids;
- the owner (the public uuid of the first user who joined);
- the active story.

Modules:

- `PokerTypes` (types.dfy): users, stories, votes and decoded commands.
- `Protocol` (protocol.dfy): how a text frame `<verb> <payload>` is routed
  to a verb. Keep-alive pings and non-text frames are dropped.
- `Visibility` (visibility.dfy): the vote-concealment rule. While a story is
  Voting and some active Voter has not voted, each viewer sees their own
  vote and `Hidden` for everybody else's.
- `RoomSpec` (room_spec.dfy): the room as a value (`RoomState`). It gives
  join, leave and every command as pure functions, and the room invariant
  `Valid`.
- `RoomProperties` (room_properties.dfy) and `RoomInvariant`
  (room_invariant.dfy): lemmas about those functions. They cover owner
  gating, the effect of each command, Finished being terminal, the owner
  never changing and the invariant being kept.
- `Snapshots` (snapshots.dfy): the users and stories lists built for each
  recipient, and the set of messages one broadcast sends.
- `Server` (room.dfy): the class `Room`. Its methods update the fields in
  place. Each one is proved to produce exactly the `RoomSpec` result and to
  keep the invariant.

The server's protocol is small:

- a story has only two states, Voting and Finished (src/main.rs:74-77);
- the six verbs are `user`, `stories`, `remove_story`, `vote`, `finish` and
  `active_story`, and no verb reopens or flips a story;
- `finish` carries only a story uuid, with no final estimate
  (src/main.rs:185-188).

## Model

| member | source | states |
|---|---|---|
| Protocol.Route | src/main.rs:286-397 | A non-text frame or the text `ping` / `ping\n` is skipped. Any frame routed to a verb is exactly that verb's prefix followed by the payload. |
| Protocol.RouteEncoded | src/main.rs:296-297 | A frame made of a verb, one space and any payload routes to that verb, and the payload is everything after the prefix. |
| Visibility.ComputeVotes | src/main.rs:229-244 | The viewer's map has the same keys as the story's votes, and the viewer's own vote is shown as cast. If the story is Finished or no active Voter is missing a vote, the map is returned unchanged. Otherwise every other entry is `Hidden`. |
| Visibility.ConcealedVotesDoNotLeak | src/main.rs:241-243 | While votes are concealed, what a viewer sees does not depend on the values of other users' votes. It depends only on who voted and on the viewer's own vote. |
| Visibility.RevealedIsSameForEveryone | src/main.rs:238-240 | Once revealed, every viewer sees the same map: the real votes. |
| Visibility.LastVoteReveals | src/main.rs:231-236 | When the last active Voter without a vote casts one, the votes become revealed. |
| Visibility.HiddenShownIff | src/main.rs:229-244 | A viewer sees a `Hidden` entry exactly when someone voted `Hidden`, or when the votes are concealed and someone else has voted. |
| RoomSpec.IndexOf | src/main.rs:346 | Finds the first story with the uuid, as `iter_mut().find` does, or reports that no story has it. |
| RoomSpec.RetainCounts | src/main.rs:335 | `retain` drops every story with the uuid and keeps each other story as many times as it occurred. |
| RoomSpec.RetainLength | src/main.rs:334-336 | The list gets shorter exactly when some story has the uuid. |
| RoomSpec.RetainConcat | src/main.rs:335 | `retain` works piecewise on any split of the list, so the kept stories keep their relative order. |
| RoomSpec.RetainKeepsOtherLookups | src/main.rs:335 | Removing one uuid does not change what a lookup of any other uuid finds. |
| RoomSpec.RetainKeepsDistinct | src/main.rs:335 | Removing stories from a list with distinct uuids leaves distinct uuids. |
| RoomProperties.NonOwnerIsIgnored | src/main.rs:327-394 | `remove_story`, `finish` and `active_story` from anybody but the owner leave the room unchanged and broadcast nothing, whatever the payload. |
| RoomProperties.UndecodedFrameIsIgnored | src/main.rs:286-293 | A frame that yields no decoded command leaves the room unchanged and broadcasts nothing. This covers non-text frames, pings, unknown verbs and payloads that fail to parse. |
| RoomProperties.OnlyOwnerUsesOwnerVerbs | src/main.rs:327-394 | An owner-only command from a joined user changes the room only if that user's public uuid is the owner. |
| RoomProperties.IndexOfAppend | src/main.rs:311-319 | Pushing stories does not change what a lookup of an already-present uuid finds. |
| RoomProperties.IndexOfSameUuids | src/main.rs:346-351 | A lookup depends only on the uuids at each position. |
| RoomProperties.RetainRemovesLookup | src/main.rs:335 | After `remove_story`, no story with that uuid is found. |
| RoomProperties.VoteRecordedOnlyWhileVoting | src/main.rs:344-358 | A vote is recorded only if the story exists, is Voting and the sender is a known user. It is keyed by the sender's public uuid, overwrites any earlier vote and changes nothing else. Otherwise the room is unchanged and nothing is broadcast. |
| RoomProperties.FinishFinishesExactlyThatStory | src/main.rs:370-375 | `finish` sets exactly the story with that uuid to Finished and leaves every other story and field unchanged. It broadcasts only if that story exists. |
| RoomProperties.AddStoriesAppendsInOrder | src/main.rs:309-322 | `stories` appends one story per item, in order. Each gets its own fresh uuid, the item's url and description, state Voting and no votes. The existing stories stay unchanged and in front. |
| RoomProperties.RemoveStoryRemovesExactlyThose | src/main.rs:333-339 | `remove_story` drops exactly the stories with that uuid and keeps the others in relative order. It broadcasts exactly when the length changed. |
| RoomProperties.SetActiveSetsIt | src/main.rs:381-390 | An `active_story` frame from the owner, once routed, owner-checked and decoded, sets the active story to the given uuid whether or not a story has it. It leaves users, stories and owner unchanged, and broadcasts the stories snapshot. |
| RoomProperties.SetUserChangesOnlySender | src/main.rs:296-304 | `user` renames and re-roles the sender if the sender is known, and leaves everybody else alone. The users list is broadcast in every case. |
| RoomProperties.JoinEffect | src/main.rs:415-426 | A join creates a new user with the fresh public uuid, an empty name and role Voter. A returning user keeps their identity and name. The joiner becomes active and connected, and nobody else changes. The first joiner becomes owner, and an existing owner stays. |
| RoomProperties.LeaveEffect | src/main.rs:448-452 | On leave, only that user becomes inactive and loses their channel. |
| RoomProperties.StepKeepsOwner | src/main.rs:420-426 | Once a room has an owner, no event changes it. |
| RoomProperties.OwnerNeverChanges | src/main.rs:420-426 | Over any run of events, an existing owner stays the owner. |
| RoomProperties.FirstJoinerOwnsForever | src/main.rs:420-423 | The first user to join a new room owns it after every later event. |
| RoomProperties.StepKeepsFinished | src/main.rs:309-376 | After any event, a Finished story is still found Finished. The only exception is a `remove_story` frame of its uuid after which no story with that uuid is left. No event sets a story back to Voting. |
| RoomProperties.FinishedIsTerminal | src/main.rs:309-376 | Over any run with no decoded `remove_story` frame of its uuid, a Finished story stays Finished. The run must contain no such frame even from a non-owner, whose frame the owner check would reject. |
| RoomInvariant.EmptyRoomValid | src/main.rs:104-112 | A new room satisfies the room invariant. |
| RoomInvariant.JoinKeepsValid | src/main.rs:415-426 | A join with a public uuid not yet used in the room keeps the invariant. |
| RoomInvariant.LeaveKeepsValid | src/main.rs:448-452 | A leave keeps the invariant. |
| RoomInvariant.AddStoriesKeepsValid | src/main.rs:311-319 | Appending stories with distinct, unused uuids keeps story uuids distinct and the invariant. |
| RoomInvariant.RemoveStoryKeepsValid | src/main.rs:335 | Removing stories keeps the invariant. |
| RoomInvariant.VoteKeepsValid | src/main.rs:346-351 | Recording a vote keeps the invariant. In particular, every vote stays keyed by a user's public uuid. |
| RoomInvariant.FinishKeepsValid | src/main.rs:371-373 | Finishing a story keeps the invariant. |
| RoomInvariant.SetUserKeepsValid | src/main.rs:298-301 | Renaming a user keeps the invariant. |
| RoomInvariant.StepKeepsValid | src/main.rs:284-399 | Every admissible join, leave or client frame keeps the invariant. |
| RoomInvariant.RunKeepsValid | src/main.rs:401-455 | Every room reached from a valid room through admissible events satisfies the invariant. |
| Snapshots.IsThisExactlyOwnEntry | src/main.rs:208-220 | The users list has one entry per user, showing that user's public uuid, name, role and activity. Exactly one entry is marked `is_this`: the recipient's own. |
| Snapshots.StoriesSnapshotShowsEveryStory | src/main.rs:249-261 | The stories list shows every story in order, with its fields and state, plus the active story. Each story's votes are masked for the viewer: the same voters and the viewer's own vote, `Hidden` for everybody else's while concealed, and the real votes once revealed. |
| Snapshots.StoriesSnapshotDoesNotLeak | src/main.rs:250-258 | Two rooms that differ only in votes the viewer may not see give that viewer the same stories list. |
| Snapshots.OutboxFollowsConnections | src/main.rs:207-209 | Right after a leave no broadcast addresses the leaver, and right after a join every broadcast addresses the joiner. |
| Snapshots.StepKeepsOffline | src/main.rs:415-416 | Only a join of a user opens a channel for that user: no other event connects them. |
| Snapshots.RunKeepsOffline | src/main.rs:415-451 | Over any run without a join of that user, a user with no channel still has none. |
| Snapshots.LeaverGetsNothingUntilRejoin | src/main.rs:207-268 | After a leave, over any later run of events without a join of that user, no broadcast addresses the user. |
| Server.Room.constructor | src/main.rs:104-112 | A new room has no users, no stories, no owner and no active story. |
| Server.Room.SendUpdate | src/main.rs:246-268 | Walking the users in map order, it addresses one message to every connected user, built for that user. |
| Server.Room.Join | src/main.rs:401-432 | Updates the room in place exactly as the join specification says and keeps the invariant. It gives the joiner the owner and their own public uuid, then broadcasts users and stories. |
| Server.Room.Leave | src/main.rs:448-455 | Updates the room in place exactly as the leave specification says, keeps the invariant and broadcasts users. |
| Server.Room.ClientMsg | src/main.rs:284-399 | Routes the frame, applies the owner check before decoding, drops undecoded payloads and runs the command. The new room and the broadcast are exactly those of the dispatch specification, and the invariant is kept. |
| Server.Room.SetUser | src/main.rs:296-308 | Performs `user` in place, as specified. |
| Server.Room.AddStories | src/main.rs:309-326 | Pushes one story per item in a loop. The result is the old list followed by the new stories, as specified. |
| Server.Room.RemoveStory | src/main.rs:333-339 | Keeps, in a loop, the stories whose uuid differs, in order, as `retain` does. It broadcasts only if the length changed, all as specified. |
| Server.Room.CastVote | src/main.rs:344-363 | Records the vote in place, as specified. |
| Server.Room.FinishVoting | src/main.rs:370-376 | Sets the found story to Finished in place, as specified. |
| Server.Room.SetActiveStory | src/main.rs:387-390 | Sets the active story in place and broadcasts. |

## Left out

- The map of rooms and room creation on first connection (src/main.rs:116, 403): the model covers one room. Rooms are never removed, so the lookup in the frame handler always finds the room.
- The room's creation time and its formatting (chrono): it is informational only and no rule depends on it.
- The config message's `vote_options` and the reading of `config.ini`: these are file I/O and floats. The modelled config message carries the owner and the recipient's public uuid.
- WebSocket plumbing: tokio tasks, the unbounded channels, the `RwLock`, the forwarding task and send errors (which are only logged). Each handler is one atomic step on the room, and a user's channel is the flag `connected`.
- JSON decoding (serde): a frame's payload arrives already decoded, or absent when decoding failed. A failed decode leaves the room unchanged.
- `Uuid::new_v4`: fresh public and story uuids are parameters. The invariant lemmas assume what the uuid generator provides: a new public uuid is not used in the room, and new story uuids are distinct and unused.
- Iteration order of the user map: it is an explicit parameter, a list naming every user exactly once.
- `Vote::Value(f64)` carries an integer payload, because the server never computes with the number.
- Logging, HTTP routes, static files, CORS and `main`.
- RoomProperties.FinishedIsTerminal: stated only for runs with no decoded `remove_story` frame of that uuid, even one the owner check rejects. After a removal, a later `stories` command may reuse the uuid for a new Voting story, because the model's uuid generator only promises uuids unused in the current room.
