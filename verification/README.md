# A verified model of the STOMP Twitter server and its client

The repository is a publish/subscribe system. A Java engine keeps users, topics
and queues of undelivered messages; a Java protocol and tokenizer layer exists
once for a reactor and once for a server with a thread per client; a C++ client
keeps its own table of subscriptions and changes it only when a reply arrives.
This project models all four and proves properties of them, up to statements
about every run.

## How it is laid out

The state of the server appears twice. `World.dfy` gives it as a value, with one
protocol step as a function of it; the properties of runs are proved there.
`Engine.dfy` has the objects as they are in the source, users, topics, sessions,
connections and the engine, referring to each other and updated in place, and
every method is proved to do to the objects what the functions do to the value.
`Reactor.dfy` closes the circle: what a `ProtocolTask` does to these objects, from
bytes to bytes, is a run of the model, so what is proved of runs holds of the objects.
`Effects.dfy`, `Commands.dfy`, `Layout.dfy`, `AnswerLayout.dfy` and `Formats.dfy` say
independently, in records, names and characters, what each frame, command and text
comes to.

| file | contents |
|---|---|
| `Text.dfy` | splitting, joining, trimming, decimals |
| `Mentions.dfy` | the mention pattern |
| `World.dfy` | the server as a value, one step, runs |
| `Invariants.dfy` | what every step of every run keeps |
| `Subscriptions.dfy` | the two subscription indexes, login reset, sessions |
| `Posting.dfy` | what one tweet delivers and counts |
| `Counters.dfy` | accounting over runs, the statistics timer |
| `Order.dfy` | order and conservation from posting to output, confirmations |
| `Effects.dfy` | what each frame does, outcome by outcome, in terms of the records alone |
| `Client.dfy` | the client's subscription table and its two commands |
| `Agreement.dfy` | client and server over two channels |
| `Commands.dfy` | what follow and unfollow come to in both maps |
| `Witnesses.dfy` | runs from the empty engine that refute stronger claims |
| `Frames.dfy`, `RoundTrip.dfy` | the server's printer and parser and their round trip |
| `Layout.dfy` | which text is which frame on the server, for every text |
| `Tokenizers.dfy` | both servers' front ends |
| `ClientFrames.dfy` | the client's printer, parser and byte reader |
| `AnswerLayout.dfy` | which text is which frame on the client, for every text |
| `Wire.dfy` | typed frames to text and back, over whole streams |
| `Formats.dfy` | the text of every frame, character by character |
| `Bytes.dfy` | agreement of client and server over two byte streams |
| `Engine.dfy` | the objects of the server |
| `Reactor.dfy` | the `ProtocolTask` that drives them |

## What the model takes for granted

- One step is one frame processed to the end, with the handler's flush after
  CONNECTED. Only `TwitterEngine.send` and parts of `User` and `Topic` are
  synchronized in the source, so this atomicity is an assumption.
- A user is an object and is compared as one: `User.equals`
  (twitterEngine/src/spl/twitter/engine/User.java:173-176) compares name
  references and there is no `hashCode`.
- The order in which hash maps yield their entries and the text of the "clients"
  and "stats" answers are part of an event: every order and every text is covered.
- Runs contain no login under the name "server", which would replace the server's
  topic (`Orderly` in `Invariants.dfy`); the methods handle one, and `Connect` says
  when the objects survive it.
- The theorems about runs leave "stop" out as well (`Allowed`), since it logs users
  out without telling their sessions. The indexes and queues survive it
  (`StepSound`), exclusivity never does (`StopAloneBreaks`), and `ProtocolTask.Run`
  covers it.
- The agreement of client and server is about one client process with one login,
  whose commands come after CONNECTED has been handled. The argument of follow is
  one word, and does not strip to the empty name or to a name in the table under
  another spelling. With nothing in flight these are exactly the cases in which
  agreement is lost (`FollowUnderAnotherSpelling`, `UnfollowOfTheEmptyName`).
- Characters are one byte each, so decoding is the identity.
- The absent body of an error is the empty string, as the frame's constructor
  makes it, and the absent reply to a post is no reply.

## Where the code differs from what is said about it

- The wire format follows the STOMP Protocol Specification, Version 1.2, with
  differences: of repeated headers the last one counts, not the first ("Repeated
  Header Entries"); the server prints no blank line before NUL when the body is
  empty ("STOMP Frames"); escapes and content-length are not known.
- The comment at twitterClient/twitterClient/src/stomp/connectionHandler.cpp:76-77
  says that the delimiter is not appended; it is, and the client's parser sees it.
- "Already Following" is decided by the id alone
  (twitterEngine/src/spl/twitter/engine/TwitterEngine.java:167-169), so one topic
  can be held under two ids.
- The comment at twitterEngine/src/spl/twitter/engine/TwitterEngine.java:240-241
  promises not to serve users who already got the tweet; users reached by an
  earlier mention are served again.
- `empty()` at twitterClient/twitterClient/src/stomp/TwitterClient.cpp:187 is
  commented as a reset and only queries.
- A closing session is meant to go on writing pending data
  (twitterReactorServer/src/spl/twitter/reactor/ConnectionHandler.java:118-119); it
  closes at the end of one buffer, whatever is pending behind it (lines 184-187).

## Model

| member | source | states |
|---|---|---|
| Invariants.StepSound | twitterEngine/src/spl/twitter/engine/TwitterEngine.java:104-317 | one whole protocol step, "stop" included, keeps both subscription indexes in agreement, sessions existing and the queues of whoever is connected empty; every step but "stop" keeps session exclusivity as well |
| Invariants.StepKeeps | twitterEngine/src/spl/twitter/engine/TwitterEngine.java:104-260 | one whole protocol step other than "stop" keeps the full invariant |
| Invariants.StopAloneBreaks | twitterEngine/src/spl/twitter/engine/TwitterEngine.java:293-302 | a step breaks the invariant if and only if it is a "stop", whose sessions keep users who are not connected any more |
| Invariants.RunKeeps | twitterEngine/src/spl/stomp/protocol/StompProtocol.java:39-90 | the same over every run of frames from any number of sessions, from any state in which it holds |
| Invariants.ReachableInv | twitterEngine/src/spl/twitter/engine/TwitterEngine.java:54-74 | every state reachable from the empty engine satisfies the invariant |
| Subscriptions.StepDirectory | twitterEngine/src/spl/stomp/protocol/StompProtocol.java:39-148 | what a step does to accounts, lists and sessions depends on these alone: it commutes with forgetting messages, output and counters |
| Subscriptions.SessionExclusivity | twitterEngine/src/spl/stomp/protocol/StompProtocol.java:133-148 | in a reachable state no two sessions hold the same user, and every session's user is known and connected |
| Subscriptions.IndexAgreement | twitterEngine/src/spl/twitter/engine/User.java:152-167 | in a reachable state, if a topic lists a user under an id, that user's map takes the id to that topic |
| Subscriptions.ExactStep | twitterEngine/src/spl/twitter/engine/TwitterEngine.java:157-181 | the two indexes stay exact inverses over a step if and only if the step is not an accepted subscription to a topic the user already holds under another id |
| Subscriptions.ExactRun | twitterEngine/src/spl/twitter/engine/TwitterEngine.java:157-205 | on every run without such a subscription the two indexes are exact inverses throughout |
| Subscriptions.InitialExact | twitterEngine/src/spl/twitter/engine/TwitterEngine.java:54-57 | the empty engine is a state from which that holds |
| Witnesses.OneTopicUnderTwoIds | twitterEngine/src/spl/twitter/engine/TwitterEngine.java:167-169 | the guard looks at the id only: a run from the empty engine after which a user holds one topic under two ids, and one step more after which the user holds it but is not listed there |
| Subscriptions.LoginReset | twitterEngine/src/spl/twitter/engine/User.java:80-92 | the reset loop throws in no state that satisfies the invariant, in whatever order the map yields the ids, and comes to one closed form |
| Subscriptions.LoginLeavesSelf | twitterEngine/src/spl/twitter/engine/User.java:62-75 | after a successful login the user holds only "0" and no other topic lists the user |
| Subscriptions.SelfSubscription | twitterEngine/src/spl/twitter/engine/Topic.java:40-47 | in every reachable state each user holds the own topic under "0" and is listed there under "0" |
| Subscriptions.FollowersNonNegative | twitterEngine/src/spl/twitter/engine/Topic.java:140-143 | a user topic's follower count is never negative, whereas the server topic of the empty engine counts -1 |
| Subscriptions.FollowersAre | twitterEngine/src/spl/twitter/engine/Topic.java:140-143 | in a reachable state a user is followed by everybody on the topic's list but the user |
| Mentions.GroupIsRun | twitterEngine/src/spl/twitter/engine/TwitterEngine.java:34 | the backtracking of the pattern's group comes to the whole run of letters and digits, or to no match when it is shorter than two or starts with a digit |
| Mentions.Find | twitterEngine/src/spl/twitter/engine/TwitterEngine.java:244-246 | repeated search yields exactly the mentions in textual order: nothing is found inside a match |
| Mentions.MatchesIff | twitterEngine/src/spl/twitter/engine/TwitterEngine.java:34 | the pattern, with every character range written out, matches from i to j exactly where the model finds a mention at i whose name ends at j |
| Mentions.MentionsAre | twitterEngine/src/spl/twitter/engine/TwitterEngine.java:243-246 | a list of names is what is found from a position on if and only if it is the groups of the successive leftmost matches of the written-out pattern |
| Posting.TweetDelivers | twitterEngine/src/spl/twitter/engine/TwitterEngine.java:214-260 | the interleaved deliveries of a tweet and its mentions come to one list of calls of User.send computed from the state before the tweet |
| Posting.TweetCounts | twitterEngine/src/spl/twitter/engine/Topic.java:81-95 | what one tweet adds to every topic's posted, mentions and mentioned counters and to the total, counted over mention occurrences |
| Posting.FanOut | twitterEngine/src/spl/twitter/engine/TwitterEngine.java:236-256 | exact fan-out: u gets one message if subscribed to p, otherwise one for each mention, in textual order, of an existing topic u is subscribed to, with that topic's name and u's id there |
| Posting.MoreThanOnce | twitterEngine/src/spl/twitter/engine/TwitterEngine.java:238-255 | a tweet reaches a user more than once if and only if the user does not follow the author and the text mentions at two places topics the user follows |
| Witnesses.TwoCopiesOfOneTweet | twitterEngine/src/spl/twitter/engine/TwitterEngine.java:251-254 | a run from the empty engine after which one tweet reaches one user twice, as the list of the served is not extended by mentions |
| Posting.DeliverOffline | twitterEngine/src/spl/twitter/engine/User.java:147-150 | deliveries to a disconnected user append to the queue, in order and with nothing else changed |
| Posting.DeliverOnline | twitterEngine/src/spl/twitter/engine/User.java:97-105 | what a list of deliveries does to one session is to hand it exactly the messages of the users attached to it, in order |
| Counters.CounterAccounting | twitterEngine/src/spl/twitter/engine/TwitterEngine.java:237-259 | on every run: posted minus mentioned of a user topic is that user's accepted tweets; all posted is the total plus all mentioned plus the server broadcasts; all mentioned is at most all mentions |
| Counters.NetRun | twitterEngine/src/spl/twitter/engine/Topic.java:164-173 | the per-user half of the accounting, from any state |
| Counters.SumsRun | twitterEngine/src/spl/twitter/engine/TwitterEngine.java:258 | the summed half of the accounting, from any state |
| Counters.TotalStep | twitterEngine/src/spl/twitter/engine/TwitterEngine.java:258 | a step adds one to the engine's total if and only if it accepts a tweet |
| Counters.TotalGrows | twitterEngine/src/spl/twitter/engine/TwitterEngine.java:60-70 | the totals the timer samples in the course of a run never decrease, which a tick relies on |
| Counters.StatsTimer.Run | twitterEngine/src/spl/twitter/engine/TwitterEngine.java:60-70 | a tick keeps: last total is the last sample, the recorded maximum is the largest growth between neighbouring samples |
| Counters.PeriodMaximum | twitterEngine/src/spl/twitter/engine/TwitterEngine.java:65-68 | after n ticks the growths sum to the last sample, and n times the maximum is at least that |
| Order.OfflineRun | twitterEngine/src/spl/twitter/engine/User.java:147-150 | while a user is offline every run appends to the queue exactly what is posted to the user, in posting order |
| Order.LoginOutput | twitterReactorServer/src/spl/twitter/reactor/ProtocolTask.java:35-54 | a login hands the session CONNECTED and then the whole backlog, oldest first |
| Order.FirstLoginOutput | twitterEngine/src/spl/twitter/engine/TwitterEngine.java:126-140 | a first login hands the session CONNECTED and nothing else |
| Order.SessionOutput | twitterReactorServer/src/spl/twitter/reactor/ProtocolTask.java:37-53 | one event hands an authorized session what it posts to the users attached to it and then the reply to the session's own frame, and nothing else |
| Order.LiveRun | twitterEngine/src/spl/twitter/engine/User.java:97-105 | over every run of a live session its output grows by the posts to its user and the replies to its frames, in the order of the events |
| Order.EndToEnd | twitterEngine/src/spl/twitter/engine/User.java:62-75 | end to end: everything posted to a user who is offline, logs in once and stays is handed over exactly once, CONNECTED first, then the backlog in posting order, then live traffic whose posts are exactly those posted |
| Order.NothingWaits | twitterReactorServer/src/spl/twitter/reactor/ConnectionHandler.java:229-247 | at step boundaries a connected user's queue and an authorized session's queue are empty |
| Order.Discriminator | twitterClient/twitterClient/src/stomp/frames/FrameVisitor.cpp:48 | a session that holds a user alone is sent posts and the reply to its request; a MESSAGE among these has the user's own topic and an id other than "0" if and only if it answers an accepted subscribe or unsubscribe |
| Order.FreshStep | twitterEngine/src/spl/stomp/protocol/StompProtocol.java:60-64 | a session that has not sent CONNECT stays without user, waiting frames or anybody attached |
| Effects.RefusedFrame | twitterEngine/src/spl/stomp/protocol/StompProtocol.java:39-90 | exactly which frames are refused, and with which error text: such a frame changes nothing but the session's output, except that a login as a connected user redirects that user; no other frame is answered with an error |
| Effects.OpenEffect | twitterReactorServer/src/spl/twitter/reactor/ConnectionHandler.java:81-86 | a new session has no user, is not closing and holds nothing; a frame for a session never opened changes nothing |
| Effects.DisconnectEffect | twitterEngine/src/spl/stomp/protocol/StompProtocol.java:47-58 | DISCONNECT: the user is offline, the session without user and closing, the receipt the last frame out, nothing else changes |
| Effects.ClosingRun | twitterEngine/src/spl/stomp/protocol/StompProtocol.java:47-58 | on every run from the empty engine a session is closing if and only if it sent a DISCONNECT after it was opened |
| Effects.RegistrationEffect | twitterEngine/src/spl/twitter/engine/TwitterEngine.java:126-140 | the whole new state after CONNECT of an unknown user: account and topic with the own name under "0", CONNECTED before what waits in the session |
| Effects.LoginEffect | twitterEngine/src/spl/twitter/engine/User.java:62-75 | the whole new state after a login: connected, queue empty, only "0" left, off all other lists; CONNECTED, then what waited and the backlog, unless the session held a user already |
| Effects.SubscribeEffect | twitterEngine/src/spl/stomp/protocol/StompProtocol.java:117-127 | the whole new state after an accepted SUBSCRIBE: one entry more in each index and the confirmation on the own topic under the request's id |
| Effects.UnsubscribeEffect | twitterEngine/src/spl/stomp/protocol/StompProtocol.java:108-111 | the whole new state after an accepted UNSUBSCRIBE: the entry gone from both indexes and the confirmation naming what was left |
| Effects.CommandOfText | twitterEngine/src/spl/twitter/engine/TwitterEngine.java:274-275 | a server command is, for every text, what stands between its carriage returns, in order, once the characters up to the space are gone from both ends |
| Effects.StopEffect | twitterEngine/src/spl/twitter/engine/TwitterEngine.java:293-313 | "stop" to the server topic takes everybody offline and does nothing else |
| Effects.BroadcastEffect | twitterEngine/src/spl/twitter/engine/TwitterEngine.java:277-316 | any other command posts one message to each subscriber of the server topic: the report for "stats" and whatever begins with "clients", an empty text otherwise |
| Effects.TweetEffect | twitterEngine/src/spl/twitter/engine/TwitterEngine.java:214-260 | the whole effect of a tweet in terms of the written-out pattern: what each offline user's queue and each live session's output gains, in order, and every counter |
| World.StripsLeftmost | twitterEngine/src/spl/stomp/protocol/StompProtocol.java:122-126 | stripping a destination takes out the leftmost "/topic/" and goes on behind it, and takes nothing out when there is none |
| Client.TwitterClient.RegisterSubscription | twitterClient/twitterClient/src/stomp/TwitterClient.cpp:249-269 | registers under the given id and counts up, or refuses and changes nothing when the name is in the map |
| Client.TwitterClient.GetSubscriptionIdentifier | twitterClient/twitterClient/src/stomp/TwitterClient.cpp:271-280 | the recorded id, or the empty string |
| Client.TwitterClient.RemoveSubscription | twitterClient/twitterClient/src/stomp/TwitterClient.cpp:282-299 | erases a name that is in the map and not the own, otherwise changes nothing |
| Client.TwitterClient.GetUserBySubscription | twitterClient/twitterClient/src/stomp/TwitterClient.cpp:301-316 | the walk over the map in its order returns the first name recorded under the id, or the empty string when there is none |
| Client.OnlyUserOf | twitterClient/twitterClient/src/stomp/TwitterClient.cpp:301-316 | where no two names share an id, the lookup by id is the inverse of the map |
| Client.TwitterClient.VisitConnected | twitterClient/twitterClient/src/stomp/frames/FrameVisitor.cpp:27-34 | CONNECTED registers the own name under "0"; a map that has the name already stays as it is, and so does everything else in it |
| Client.TwitterClient.VisitMessage | twitterClient/twitterClient/src/stomp/frames/FrameVisitor.cpp:45-83 | a confirmation registers or removes according to whether its id is recorded; a tweet changes nothing |
| Client.TwitterClient.Follow | twitterClient/twitterClient/src/commands/FollowCommand.cpp:25-44 | refuses a name with a recorded id, otherwise sends the next id without recording it |
| Client.TwitterClient.Unfollow | twitterClient/twitterClient/src/commands/UnfollowCommand.cpp:25-38 | sends the recorded id, or refuses when there is none |
| Client.FrameHandled | twitterClient/twitterClient/src/stomp/frames/FrameVisitor.cpp:27-83 | CONNECTED adds the own name under "0" if it is missing; RECEIPT, ERROR and a MESSAGE that is no confirmation change nothing |
| Client.FollowHandled | twitterClient/twitterClient/src/stomp/frames/FrameVisitor.cpp:53-66 | a confirmation under an id nobody is recorded under adds the second word of its text under that id, unless it is recorded already |
| Client.UnfollowHandled | twitterClient/twitterClient/src/stomp/frames/FrameVisitor.cpp:53-69 | a confirmation under a recorded id takes out the first name recorded under it, unless it is the own one |
| Client.UserOfIs | twitterClient/twitterClient/src/stomp/TwitterClient.cpp:301-316 | the name found under an id is the one among those recorded under it that comes first in the map's order |
| Client.SecondWordIs | twitterClient/twitterClient/src/stomp/frames/FrameVisitor.cpp:56-59 | the name in a text is, for every text, what follows the first run of spaces and line feeds, up to the next |
| Text.DecimalIs | twitterClient/twitterClient/src/stomp/TwitterClient.cpp:337-342 | an id reads as the number it was made from, without a zero in front |
| Client.SecondOfTwo | twitterClient/twitterClient/src/stomp/frames/FrameVisitor.cpp:56-59 | splitting a confirmation's text at spaces and line feeds finds the name behind the verb |
| Agreement.ClientServerAgreement | twitterClient/twitterClient/src/stomp/frames/FrameVisitor.cpp:45-79 | under any interleaving of follow, unfollow, posting, serving, handling and other sessions' events, the client's map after handling what is in flight is exactly the inverse of the server's map for the user, hence the two agree whenever nothing is in flight |
| Agreement.IdDiscipline | twitterClient/twitterClient/src/stomp/TwitterClient.cpp:337-342 | the ids under which follows are accepted are 2, 3, 4 and so on, each once, however requests are pipelined; the client's map stays injective |
| Commands.FollowDone | twitterClient/twitterClient/src/commands/FollowCommand.cpp:25-44 | in every run at rest: follow of a name not recorded queues SUBSCRIBE to "/topic/" and the name under the next id; served and handled, it adds exactly that entry to both maps if there is such a topic, and nothing otherwise |
| Commands.FollowRefused | twitterClient/twitterClient/src/commands/FollowCommand.cpp:25-34 | follow of a recorded name sends nothing |
| Commands.UnfollowDone | twitterClient/twitterClient/src/commands/UnfollowCommand.cpp:25-38 | in every run at rest: unfollow of a recorded name other than the own queues UNSUBSCRIBE of the id recorded for that name; served and handled, it takes exactly that entry out of both maps |
| Commands.UnfollowRefused | twitterClient/twitterClient/src/commands/UnfollowCommand.cpp:25-38 | unfollow of a name not recorded sends nothing; of the own name it sends "0", which is refused and changes neither map |
| Agreement.ConfirmedFollowRegisters | twitterClient/twitterClient/src/stomp/TwitterClient.cpp:249-269 | whenever the server accepts a follow, the client's registration of the confirmation will succeed |
| Agreement.LoginStarts | twitterClient/twitterClient/src/stomp/frames/FrameVisitor.cpp:27-31 | a client's first login, as a new user or as one the server knows and who is offline, leads to a state from which the agreement holds |
| Agreement.LaterLogin | twitterClient/twitterClient/src/stomp/TwitterClient.cpp:183-190 | after a later login of the same client the maps agree if and only if the client's map held nothing but the own name: the call meant to clear it only queries |
| Agreement.FollowUnderAnotherSpelling | twitterEngine/src/spl/stomp/protocol/StompProtocol.java:117-127 | from agreement with nothing in flight, a confirmed follow keeps the maps inverse if and only if the name the server strips the argument to is not in the client's map |
| Agreement.UnfollowOfTheEmptyName | twitterClient/twitterClient/src/stomp/frames/FrameVisitor.cpp:53-69 | an unfollow confirmation removes the name if and only if the name is not empty |
| Frames.ToString | twitterEngine/src/spl/stomp/protocol/StompFrame.java:115-135 | the print loop yields command, header lines in the map's own order, the body between line feeds unless it is empty, and NUL |
| Frames.ParseText | twitterEngine/src/spl/stomp/protocol/StompFrame.java:144-208 | the line-by-line parser never leaves the line array and computes the same frame as a definition by splitting and skipping |
| Frames.ReadHeaders | twitterEngine/src/spl/stomp/protocol/StompFrame.java:180-190 | the header loop stops at the first blank line, the last of repeated headers winning and a line without key or colon ignored |
| Frames.ReadBody | twitterEngine/src/spl/stomp/protocol/StompFrame.java:192-198 | the body loop trims each remaining line and ends it with a tab |
| Frames.ParseNull | twitterEngine/src/spl/stomp/protocol/StompFrame.java:147-148 | parse returns null if and only if no character is above the space |
| Frames.ParseLeadingNewline | twitterEngine/src/spl/stomp/protocol/StompFrame.java:152-153 | parsing does not depend on leading line feeds |
| RoundTrip.PrintParse | twitterEngine/src/spl/stomp/protocol/StompFrame.java:115-208 | parse after print keeps the command and the header map for any header order and maps the body by Norm |
| RoundTrip.NormTwice | twitterEngine/src/spl/stomp/protocol/StompFrame.java:194-197 | Norm of a Norm is a fixed point of Norm |
| RoundTrip.NormFixed | twitterEngine/src/spl/stomp/protocol/StompFrame.java:194-197 | a body survives a round trip if and only if it is empty or a trimmed single line with one tab |
| RoundTrip.ParseLayout | twitterEngine/src/spl/stomp/protocol/StompFrame.java:157-198 | how a command line, header lines, a blank line and body lines parse, for any lines |
| Layout.TextParses | twitterEngine/src/spl/stomp/protocol/StompFrame.java:144-208 | what every text is parsed to, by its lines, with all names written out: which of five frames or which error, which headers and which body |
| Layout.EveryText | twitterEngine/src/spl/stomp/protocol/StompFrame.java:150-155 | every text with a character above the space is laid out as that theorem takes for granted |
| Layout.HeadersAre | twitterEngine/src/spl/stomp/protocol/StompFrame.java:180-190 | a key has a value if and only if that is what the last line with this key gives it, the key being what stands before the first colon |
| Layout.ParsedComplete | twitterEngine/src/spl/stomp/protocol/StompFrame.java:79-87 | no text is parsed to CONNECT without accept-version, host, login and passcode, to DISCONNECT without receipt, to SEND without destination, to SUBSCRIBE without destination and id, or to UNSUBSCRIBE without id |
| Layout.PrintedIncomplete | twitterEngine/src/spl/stomp/protocol/StompFrame.java:79-87 | a printed frame that lacks one of these comes back as the error that names the first one missing |
| Tokenizers.ReactorTokenizer.AddBytes | twitterReactorServer/src/spl/twitter/tokenizer/StompFrameTokenizer.java:52-55 | a buffer is appended; texts taken, string buffer and pending buffers still concatenate to all input |
| Tokenizers.ReactorTokenizer.HasMessage | twitterReactorServer/src/spl/twitter/tokenizer/StompFrameTokenizer.java:63-75 | all pending buffers move into the string buffer in order; true if and only if it holds a NUL |
| Tokenizers.ReactorTokenizer.NextMessage | twitterReactorServer/src/spl/twitter/tokenizer/StompFrameTokenizer.java:83-95 | the text before the first NUL is taken out and parsed; nothing is lost or reordered |
| Tokenizers.ReactorTokenizer.Drain | twitterReactorServer/src/spl/twitter/reactor/ProtocolTask.java:35-54 | the drain loop ends; the texts taken are exactly those before the NULs of all input and what is left is what follows the last |
| Tokenizers.DrainChunks | twitterReactorServer/src/spl/twitter/reactor/ProtocolTask.java:56-58 | chunking independence: for any split of a stream into buffers and any choice of when to drain, the parsed frames and the rest are those of the NUL-split of the stream |
| Tokenizers.TakenIsComplete | twitterReactorServer/src/spl/twitter/tokenizer/StompFrameTokenizer.java:83-95 | whoever has taken NUL-free texts and holds a NUL-free rest has taken exactly the complete texts of the stream |
| Tokenizers.LineTokenizer.GetFrame | twitterThreadPerClientServer/src/spl/twitter/server/StompFrameTokenizer.java:40-62 | reads whole lines up to one that ends in NUL and parses those before it; a stream that ends first gives the disconnect frame |
| Tokenizers.FrameTextIs | twitterThreadPerClientServer/src/spl/twitter/server/StompFrameTokenizer.java:40-62 | line by line, with any of the three line ends: a line that ends with NUL is dropped and ends the frame, any other is added with a line feed |
| Tokenizers.FrontEndsAgree | twitterThreadPerClientServer/src/spl/twitter/server/StompFrameTokenizer.java:40-62 | on every stream of client-printed frames both servers parse the same sequence of frames |
| ClientFrames.ClientToString | twitterClient/twitterClient/src/stomp/frames/StompFrame.cpp:35-44 | the client's printer: command, header lines, blank line, body, line feed and NUL |
| ClientFrames.ParseClientText | twitterClient/twitterClient/src/stomp/frames/StompFrameFactory.cpp:28-74 | the token loop of the client's parser computes kind, header map and body as defined by cutting at the first double line feed |
| ClientFrames.ByteSource.GetFrameAscii | twitterClient/twitterClient/src/stomp/connectionHandler.cpp:74-89 | reads up to and including the delimiter, or everything and false when there is none |
| ClientFrames.AnswersOfStream | twitterClient/twitterClient/src/stomp/TwitterClient.cpp:114-150 | from a stream of server-printed frames with either server's trailer the listener takes each text once, skipping the reactor's extra NUL |
| ClientFrames.ServerToClient | twitterClient/twitterClient/src/stomp/frames/StompFrameFactory.cpp:28-74 | a server-printed frame with well-formed headers is parsed by the client to the same kind and header map, with the body as received |
| ClientFrames.ReceivedIs | twitterClient/twitterClient/src/stomp/frames/StompFrameFactory.cpp:28-74 | a body is received without the white space in front and with a line feed and NUL behind |
| AnswerLayout.AnswerParses | twitterClient/twitterClient/src/stomp/frames/StompFrameFactory.cpp:28-74 | what every text is parsed to on the client, by its lines, with all names written out: which of four frames or none, which headers and which body |
| AnswerLayout.PairsAre | twitterClient/twitterClient/src/stomp/frames/StompFrameFactory.cpp:28-74 | a key has a value if and only if that is what the last token with this key gives it, the key being what stands before the first colon, even if that is nothing |
| AnswerLayout.EveryAnswer | twitterClient/twitterClient/src/stomp/frames/StompFrameFactory.cpp:28-74 | every text whose first part is not blank is laid out as that theorem takes for granted |
| ClientFrames.ClientToServer | twitterEngine/src/spl/stomp/protocol/StompFrame.java:144-208 | a client-printed request is parsed by the server to the same command and header map, its body normalized |
| ClientFrames.SingleLineBody | twitterEngine/src/spl/stomp/protocol/StompFrame.java:192-198 | a single-line body arrives equal after trimming |
| Wire.RequestArrives | twitterEngine/src/spl/stomp/protocol/StompProtocol.java:39-90 | printing any of the client's five requests and parsing it on the server gives the request the session acts on, a post's body normalized |
| Formats.RequestPrinted | twitterClient/twitterClient/src/stomp/frames/StompFrame.cpp:35-44 | the text of each of the five requests, character by character |
| Formats.RequestRead | twitterEngine/src/spl/stomp/protocol/StompProtocol.java:39-90 | read by the server, that text is the request again |
| Formats.SentBody | twitterEngine/src/spl/stomp/protocol/StompFrame.java:192-198 | how a posted body of any number of lines arrives |
| Formats.BadRequests | twitterEngine/src/spl/stomp/protocol/StompProtocol.java:41-45 | blank text, an unknown command and a missing header are read as the errors they are answered with |
| Formats.ReplyPrinted | twitterEngine/src/spl/stomp/protocol/StompFrame.java:115-135 | the text of each of the four replies, character by character |
| Formats.ReplyRead | twitterClient/twitterClient/src/stomp/frames/StompFrameFactory.cpp:28-74 | read by the client, that text is the reply again, its body as received, and the whole text where the body is empty |
| Wire.RequestStream | twitterThreadPerClientServer/src/spl/twitter/server/StompFrameTokenizer.java:40-62 | a whole stream of requests, from CONNECT to DISCONNECT, arrives complete and in order at either server |
| Wire.ReplyArrives | twitterClient/twitterClient/src/stomp/frames/FrameVisitor.cpp:27-83 | a printed reply, behind a stray line feed or not, changes the client's map as the typed frame does |
| Wire.ReplyStream | twitterClient/twitterClient/src/stomp/TwitterClient.cpp:114-150 | a whole stream of replies, with either server's trailer, changes the client's map as the typed frames do in order |
| Bytes.AgreementOverBytes | twitterClient/twitterClient/src/stomp/TwitterClient.cpp:114-150 | agreement end to end: in every run whose names, ids and texts fit in frames, the client that reads the bytes of what is in flight, from either server, ends with the inverse of the server's map |
| Bytes.RequestsOverBytes | twitterThreadPerClientServer/src/spl/twitter/server/StompFrameTokenizer.java:40-62 | in every such run the requests still to be served are exactly what either server reads from the bytes the client has printed |
| Bytes.PlainOnceAndAlways | twitterEngine/src/spl/twitter/engine/TwitterEngine.java:104-205 | names of topics and ids of subscriptions fit in header lines throughout every run of frames that do |
| Bytes.RegistrationStarts | twitterEngine/src/spl/twitter/engine/TwitterEngine.java:126-140 | a client that registers starts such a run |
| Engine.ConnectionHandler.AddOutData | twitterReactorServer/src/spl/twitter/reactor/ConnectionHandler.java:88-91 | enqueues a frame's bytes and sets write interest; conservation holds: written and pending bytes are those of all frames handed over |
| Engine.ConnectionHandler.Write | twitterReactorServer/src/spl/twitter/reactor/ConnectionHandler.java:163-193 | the whole new state for whatever room the socket has; conservation and write interest are kept; a closing connection closes exactly when its first buffer is out, and then everything has been written if and only if nothing with bytes was behind it |
| Engine.LostReceipt | twitterReactorServer/src/spl/twitter/reactor/ConnectionHandler.java:184-187 | with a message pending when the client disconnects, the connection ends closed with the message written and the receipt not |
| Engine.ConnectionHandler.Send | twitterReactorServer/src/spl/twitter/reactor/ConnectionHandler.java:229-232 | an authorized session's queue goes to the output in order with the frame last, otherwise the frame waits |
| Engine.ConnectionHandler.FlushMessages | twitterReactorServer/src/spl/twitter/reactor/ConnectionHandler.java:234-247 | the queue goes to the output in order if the session is authorized, otherwise nothing changes |
| Engine.User.Send | twitterEngine/src/spl/twitter/engine/User.java:147-150 | appends to the queue, and if connected hands the session the whole queue in order |
| Engine.User.FlushMessages | twitterEngine/src/spl/twitter/engine/User.java:97-105 | the whole queue goes to the session, oldest first, if the user is connected |
| Engine.User.SubscribeTo | twitterEngine/src/spl/twitter/engine/User.java:152-155 | records the topic under the id and enters the user in the topic's list |
| Engine.User.Unsubscribe | twitterEngine/src/spl/twitter/engine/User.java:157-167 | throws and changes nothing for the own topic, otherwise takes both index entries out |
| Engine.User.ResetSubscriptionsInfo | twitterEngine/src/spl/twitter/engine/User.java:80-92 | in whatever order the ids come, no exception ends the loop and the state becomes that of LoginReset |
| Engine.User.Login | twitterEngine/src/spl/twitter/engine/User.java:62-75 | with the right password: attach, flush, reset, in this order, whether or not the user was attached before; with a wrong one nothing changes |
| Engine.Topic.SetTopicUser | twitterEngine/src/spl/twitter/engine/Topic.java:40-47 | the owner is listed and subscribed under "0" |
| Engine.Topic.RemoveSubscriber | twitterEngine/src/spl/twitter/engine/Topic.java:110-120 | takes a user off the list, except that it throws for a listed owner |
| Engine.Topic.Send | twitterEngine/src/spl/twitter/engine/Topic.java:81-95 | the loop over the subscribers is the model's topic send, for any order of the list; returns exactly the names served |
| Engine.Topic.IncrementMentions | twitterEngine/src/spl/twitter/engine/Topic.java:164-166 | only this topic's mentions counter changes |
| Engine.Topic.IncrementMentioned | twitterEngine/src/spl/twitter/engine/Topic.java:171-173 | only this topic's mentioned counter changes |
| Engine.TwitterEngine.constructor | twitterEngine/src/spl/twitter/engine/TwitterEngine.java:54-57 | a new engine has the server topic and nothing else |
| Engine.TwitterEngine.Connect | twitterEngine/src/spl/twitter/engine/TwitterEngine.java:104-141 | login, registration and both refusals on the linked objects are the model's, for every name; the objects stay linked if and only if it is not a login as "server" while somebody holds the server's topic |
| Engine.TwitterEngine.Subscribe | twitterEngine/src/spl/twitter/engine/TwitterEngine.java:157-181 | both indexes of the linked objects change as in the model, or one of three errors is thrown and nothing changes |
| Engine.TwitterEngine.Unsubscribe | twitterEngine/src/spl/twitter/engine/TwitterEngine.java:190-205 | likewise for leaving, returning the topic's name |
| Engine.TwitterEngine.Send | twitterEngine/src/spl/twitter/engine/TwitterEngine.java:214-260 | missing topic, server command, posting for somebody else and the tweet itself are the model's |
| Engine.TwitterEngine.SendMentionsTo | twitterEngine/src/spl/twitter/engine/TwitterEngine.java:244-256 | the matcher's loop with its effects is the model's send to all mentions found |
| Engine.TwitterEngine.ProcessServerMessage | twitterEngine/src/spl/twitter/engine/TwitterEngine.java:271-317 | "stop" logs everybody out; anything else is a broadcast on the server topic |
| Engine.TwitterEngine.OpenSession | twitterReactorServer/src/spl/twitter/reactor/ConnectionHandler.java:81-86 | an accepted connection adds one unauthorized session with empty queues |
| Engine.StompProtocol.Connect | twitterEngine/src/spl/stomp/protocol/StompProtocol.java:133-148 | the session takes the user the engine lets in and answers CONNECTED, or answers the error |
| Engine.StompProtocol.Subscribe | twitterEngine/src/spl/stomp/protocol/StompProtocol.java:117-127 | the confirmation names the user's own topic, the request's id and the stripped destination |
| Engine.StompProtocol.Unsubscribe | twitterEngine/src/spl/stomp/protocol/StompProtocol.java:108-111 | the confirmation names the topic left |
| Engine.StompProtocol.Disconnect | twitterEngine/src/spl/stomp/protocol/StompProtocol.java:47-58 | the user is logged out, the session closing, the receipt echoed |
| Engine.StompProtocol.ProcessMessage | twitterEngine/src/spl/stomp/protocol/StompProtocol.java:39-90 | every frame processed on the objects is one application of the model's step function, reply included |
| Reactor.ProtocolTask.Handle | twitterReactorServer/src/spl/twitter/reactor/ProtocolTask.java:37-52 | the loop body on any frame, with the reply handed over and the flush after CONNECTED, is exactly one step of the model; after DISCONNECT the session is closing with output pending; and unless it was a login as "server" the next can follow |
| Reactor.ProtocolTask.DisconnectCloses | twitterReactorServer/src/spl/twitter/reactor/ConnectionHandler.java:163-193 | after a DISCONNECT is handled, a write that takes the whole first buffer closes the connection |
| Reactor.ProtocolTask.Run | twitterReactorServer/src/spl/twitter/reactor/ProtocolTask.java:35-54 | processes every complete text of the session's input in order, leaves none, and takes the objects through a run of the model, "stop" included |
| Invariants.OrderlyAllowed | twitterEngine/src/spl/twitter/engine/TwitterEngine.java:293-302 | such a run without a "stop" is one of the runs the theorems are about |

## Left out

- Sockets, selectors, the executor, accept loops and boost threads: channels are sequences, and a socket write takes some prefix of the buffer.
- Interleavings inside one frame's processing: `connect`, `subscribe`, `logout` and the flush are only partly synchronized in the source.
- The end of input: the reactor's `read` feeds a disconnect frame to the protocol and drops its receipt; a run ends there.
- The thread-per-client handler's `process` and `send`: their queue and flush are those of the reactor's handler, with a print in place of the output buffers; its front end and its trailer are modelled.
- Exceptions from a cancelled selection key: `addOutData` after the connection has closed only appends here.
- Characters of more than one byte cut apart between two buffers: the source drops the undecoded tail, so conservation would not hold.
- Message ids, session ids and timestamps: a typed frame is encoded by a fixed function in `Engine.dfy`; `Wire.dfy` carries them as arbitrary headers and shows that the client's table does not depend on them.
- The text of "clients" and "stats", the average post time, logging, console output, the HTML writer and everything below its assets.
- Wrap-around of the counters and of the client's identifier at 32 bits: they are natural numbers here, so runs of more than 2^31 posts or registrations are not covered.
- `StompFrameFactory::parse` on text whose only token is empty, and a confirmation without a second word: the source indexes past a vector's end; the model says no frame and the empty name, and neither comes from these servers.
- Engine.TwitterEngine.ProcessServerMessage: the server topic is taken from the topic map, which is the engine's own field as long as nobody logs in as "server".
- Reactor.ProtocolTask.Run: requires that no text of the input is a login as "server"; behind one the engine's field and the topic map are two topics of one name, which the state by name cannot tell apart.
- Bytes.AgreementOverBytes: requires names, ids and arguments without line ends, NUL or blanks at the end, since a header line does not carry them unharmed.
- Agreement.ClientServerAgreement: covers one login of one client process; `LaterLogin` says when a further login starts from agreement.
- Order.EndToEnd: for a user whom no other session tries to log in as while connected, since such an attempt takes the user's messages away from the session.
