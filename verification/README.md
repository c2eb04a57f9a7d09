# Verification of the sns-x-api-prod core

A Dafny model of the part of sns-x-api-prod that decides what people see: the social store and the labeling pipeline that
writes it, threads, the two feed surfaces, sessions, and the small stateful pieces around them. Requests and labeling
tasks are atomic transactions on the tables; a *run* is any sequence of them, in any order and any number of times, so
every statement about `Run(EMPTY, es)` holds for every reachable store and every interleaving.

`dafny verify dfyconfig.toml` checks the whole project.

| files | what they hold |
|---|---|
| `Options`, `Keyset`, `Sorting` | optional values and outcomes, `(created_at, id)` order and keyset pages, stable sorting |
| `SocialModel`, `Requests`, `Tasks`, `SocialRuns` | the tables as a value, each request and labeling task as a step, runs |
| `PostCreation`, `RequestEffects`, `TaskEffects` | the answer and the exact effect of each request and task on the plain columns |
| `Database`, `Execution`, `Undo` | the same requests and tasks as methods that update the stored rows, each proved equal to its step; what the opposite request takes back |
| `FeedCache`, `FeedSources` | the push cache `user_feed`, and its agreement with the pull query |
| `References`, `ThreadIndex`, `ThreadView`, `ThreadPage` | reposts and quotes, the stored `root_id`, the thread page with its rules |
| `Counters` | like counters, and what an unpublished post can own |
| `Scheduler`, `Registry`, `Dispatch`, `Redelivery`, `Interleaving` | the wave scheduler, plan order, dispatch, redelivery, commit order, and other commits between the tasks |
| `SafetyLabels`, `SafeSurfaces`, `Exposure` | which posts get labelled and when, what the feeds and threads do with items of a labelled post, and through which other items its text is still printed |
| `PostSearch`, `Ranking`, `RankSignals`, `Blending`, `Policy`, `FeedTypes`, `FeedPipeline`, `FollowingFeed`, `Visibility` | the feed algorithms, both surfaces end to end, and what the rules let a viewer see |
| `Pagination`, `Profiles` | keyset walks over fixed and changing tables |
| `Sessions`, `Credentials` | access tokens, refresh-token rotation, logout-all, password change, erasure, suspension |
| `RateLimit`, `Notifications`, `LikeGroups`, `Trends` | the fixed-window limiter, like grouping, hashtag trends |

## Findings

- **Blocks.** Only replies and follows look at blocks: who is blocked may still quote, repost and like
  (`PostCreation.QuotesIgnoreBlocks`, `RequestEffects.LikeAnswer`), and readers are only kept from authors they block
  themselves, not from authors who block them (`Visibility.PagesRespectStore`, `Visibility.BlockersStayVisible`).
- **Sign-up.** With the handle of one account and the address of another, the lookup finds two rows and fails with an
  unhandled error instead of a conflict (`Credentials.TwoRivals`).
- **Like entries.** Liker ids, handles and row ids share one name space: a like that names only a handle joins the entry
  of a liker id that is spelled the same (`LikeGroups.LikesTogether`).
- **Cache and pull query.** The two sources do part: right after a follow they agree if and only if they agreed before and
  the followee has at most 50 live posts (`FeedSources.FollowKeepsAgreement`), and with every post fanned out they differ
  from 51 posts on (`FeedSources.AgreementBreaksAboveFifty`).
- **Rate limiter.** Any interval as long as the window passes at most `2 * limit - 1` counted requests, one fewer than two
  full windows, and this bound is reached (`RateLimit.IntervalBound`, `RateLimit.BoundIsReached`).
- **Search limit.** `_post_filter` checks its limit only after keeping a row, so a limit of zero still returns one row
  (`PostSearch.LimitRespected` gives the exact condition). Its caller never asks for fewer than five.
- **Covered posts, uncovered references.** A labelled post's own items are covered and kept from minors
  (`SafeSurfaces.FlaggedStaysCovered`), but the rules look at the candidate alone and a reference is printed without a
  look at its labels. A page prints the text of a labelled post, to any viewer, if and only if the post is not deleted and
  an item without the label quotes or reposts it (`Exposure.LabelledExposure`). Reposts have no text and so are never
  labelled by the safety task (`Exposure.RepostExposes`); `Exposure.ShownToMinor` is a run in which a minor reads a
  labelled text. Profile tabs apply no rule at all (`Exposure.TabExposes`).
- **Before the label.** A flagged post is published before its safety task runs, and the later plans fan it out even when
  that task raises; it stays published and unlabelled exactly when the task was interrupted and nobody else labels it
  (`SafetyLabels.PublishedUnlabelled`, `SafetyLabels.UnlabelledFansOut`).
- **Negative scores.** Within the 48 hours that home shows a post, unseen posts of a followed author never score below
  zero from a credibility of about 10 on, those of other authors only from about 98 on (`Ranking.HomeNonNegative`); the
  default is 50, and such posts do score below zero (`Ranking.DefaultAccountNegative`).
- **Author damping.** With negative scores damping can reverse the order of one author's posts, also for two plain posts of
  a default account under the shipped weights (`Ranking.NegativeScoresFlip`). It is kept for every decay and floor exactly
  when all of the author's scores but the last are non-negative (`Ranking.AuthorOrderKept`); `Ranking.AuthorOrderCondition`
  is the exact condition for one.
- **Labels of failed posts.** The safety plan does not look at the status: a post ends failed and labelled exactly when
  validate or publish raises and its body is flagged (`SafetyLabels.FailedAndLabelled`, with a reachable post in
  `SafetyLabels.FailedPostWithLabel`). Feed rows, embeddings, engagement rows and notifications it cannot have.
- **Suspension.** It ends every access token for good, also after an unsuspension, but leaves refresh tokens alone
  (`Sessions.TokenLife`, `Sessions.SessionsBalance`).

## Model

| member | source | states |
|---|---|---|
| FeedCache.CacheAlways | app/labeling/flows/fanout/tasks.py:13-48 | in every reachable store each feed row points to a published post with the same author and time, and its owner is the author or a current follower |
| FeedCache.CompleteAlways | app/request/feed/backfill.py:12-59 | in every reachable store a live post that went through fan-out has a row in each follower's feed, unless it lay outside the backfill at follow time |
| FeedSources.ThunderIsSound | app/request/feed/pipeline.py:188-221 | the cache never shows what the pull query would not |
| FeedSources.BackfillMisses | app/request/feed/backfill.py:20-29 | a live post the backfill leaves out has the full 50 copied posts above it |
| FeedSources.ThunderMissesOnlyOldPosts | app/request/feed/pipeline.py:188-270 | once fan-out has caught up, a post missing from the cache lay outside its author's 50 newest when the viewer followed |
| FeedSources.ThunderEqualsInNetwork | app/request/feed/pipeline.py:188-270 | once fan-out has caught up and no followee had more than 50 live posts at follow time, both sources return the same page for every cursor and limit |
| FeedSources.TopKeys | app/request/feed/backfill.py:20-29 | the backfill copies exactly the newest posts of the followee up to the limit, one per key |
| FeedSources.AgreementCondition | app/request/feed/pipeline.py:188-270 | in a reachable store both sources agree on all pages exactly when no live post of the viewer or a followee lacks its row |
| FeedSources.FollowKeepsAgreement | app/request/routers/follows.py:51-64 | right after a follow the sources agree for the follower if and only if they agreed before and the followee has at most 50 live posts |
| FeedSources.AgreementBreaksAboveFifty | app/request/feed/backfill.py:9-29 | runs in which every post was fanned out and the sources agree after the follow if and only if there are at most 50 of them |
| SocialRuns.StepEvolves | app/request/routers/posts.py:101-157 | no transaction removes a post row, rewrites its identity, undoes publication or deletion, or returns it to processing; only creation adds one |
| SocialRuns.RunEvolves | app/labeling/flows/post_publish/tasks.py:39-68 | the same over whole runs |
| References.ReferencesAlways | app/request/routers/posts.py:116-132 | in every reachable store parents, quote and repost targets exist and have been published, quote and repost targets are never reposts, and a repost is not a reply |
| References.ReferenceResolves | app/request/routers/posts.py:67-76 | 404 unless the post and, for a repost, its original are live; otherwise the post itself or that original, which is live and no repost |
| References.AttachedRoot | app/request/routers/posts.py:111-115 | a reply stored with its parent's root or, failing that, the parent itself, is indexed under the end of its chain |
| References.RootsAlways | app/request/routers/posts.py:111-115 | in every reachable store each parent chain is finite, `root_id` is its end, null exactly without a parent, and the visibility is the root's |
| References.PathUnique | app/request/routers/posts.py:111-115 | a post climbs to one root along one path |
| PostCreation.CreationAnswer | app/request/routers/posts.py:101-132 | creation succeeds if and only if the user exists, the request is well formed, the parent is live and the user's own or unblocked both ways and open, the quoted or reposted original is live and open, the user has no undeleted repost of it, and the id is new; otherwise the code of the first that fails |
| PostCreation.CreatedPost | app/request/routers/posts.py:109-145 | one processing row is stored: a repost has no text, a reply takes its parent's visibility, references point at the original |
| PostCreation.QuotesIgnoreBlocks | app/request/routers/posts.py:79-95 | without a parent the answer does not depend on blocks |
| PostCreation.OneRepostAlways | app/request/routers/posts.py:119-131 | in every reachable store a user has at most one undeleted repost of a post |
| RequestEffects.FollowAnswer | app/request/routers/follows.py:18-49 | when a follow is refused, with which code |
| RequestEffects.FollowEffect | app/request/routers/follows.py:51-66 | the edge, one notification, and rows for exactly those of the 50 newest live posts that had none |
| RequestEffects.BackfillIsNewest | app/request/feed/backfill.py:12-44 | the backfill takes exactly the live posts with fewer than `limit` later ones, ties broken by id |
| RequestEffects.UnfollowAnswer | app/request/routers/follows.py:69-87 | 404 without the edge; otherwise exactly the author's rows go with it |
| RequestEffects.BlockAnswer | app/request/routers/blocks.py:16-54 | when a block is refused, and which edges and rows it removes |
| RequestEffects.LikeAnswer | app/request/routers/likes.py:15-61 | when a like is refused; otherwise the original gets one like more and its author one notification |
| RequestEffects.UnlikeAnswer | app/request/routers/likes.py:64-93 | the like of the post itself, or else of the original it reposts, is taken back, the counter not below zero |
| RequestEffects.DeleteAnswer | app/request/routers/posts.py:345-366 | only the author deletes a post, only once; the original's repost counter falls, not below zero |
| RequestEffects.HideAnswer | app/request/routers/moderation.py:38-59 | exactly that post becomes deleted, if there is one |
| RequestEffects.EraseEffect | app/request/routers/users.py:115-119 | exactly the posts of the account become deleted |
| RequestEffects.LabelWriteAnswer | app/request/routers/moderation.py:113-139 | a label of at most sixty-four characters is written for any id, as one row |
| TaskEffects.ValidateRaises | app/labeling/flows/post_publish/tasks.py:13-36 | validate passes if and only if the post exists, has a text or is a repost, and its parent and its quoted or reposted post are live |
| TaskEffects.PublishEffect | app/labeling/flows/post_publish/tasks.py:39-48 | only the status changes, whatever it was |
| TaskEffects.MarkFailedEffect | app/labeling/flows/post_publish/tasks.py:51-69 | only a processing post is marked |
| TaskEffects.ScreenFinds | app/safety/nsfw.py:6-22 | a text is found out if and only if one of the words stands in it in any case; the reason names the first of the list |
| TaskEffects.LabelEffect | app/labeling/flows/safety/tasks.py:10-34 | two labels for a stored, non-blank text that is found out, nothing otherwise |
| TaskEffects.FanOutEffect | app/labeling/flows/fanout/tasks.py:13-48 | a row for the author and each follower without one; raises unless published, nothing for a deleted post |
| TaskEffects.RecountEffect | app/labeling/flows/reply/tasks.py:15-137 | the true number of live replies or reposts, the other counters kept |
| TaskEffects.ReplyNotice | app/labeling/flows/reply/tasks.py:56-94 | a live reply to another author is announced once |
| TaskEffects.RepostNotice | app/labeling/flows/reply/tasks.py:139-177 | the same for a repost |
| ThreadIndex.StoredRootIsRoot | app/request/routers/posts.py:193-193 | the stored root is the recursive root |
| ThreadIndex.FlatSelectIsThread | app/request/routers/posts.py:193-201 | the flat select by `root_id` returns exactly the live posts that climb to that root |
| ThreadView.CloseThread | app/request/routers/posts.py:287-294 | the closure loop ends with the least set that holds every parentless post and every post whose parent it holds, that is the posts whose whole chain passed, whatever the list order |
| ThreadView.VisiblePass | app/request/routers/posts.py:290-294 | one pass grows the set, or changes nothing and leaves nothing to add |
| ThreadView.HidingRemovesSubtree | app/request/routers/posts.py:287-295 | hiding one post hides exactly the posts that climb through it |
| ThreadView.KeepPassing | app/request/routers/posts.py:252-285 | the policy loop keeps exactly the rows that pass, each once |
| ThreadView.GetThread | app/request/routers/posts.py:181-306 | 404 for a post that is not live, otherwise the live posts of the thread whose chain of ancestors up to the root is live and passes the policy, each once, root first, then by time and id |
| ThreadView.PageOrder | app/request/routers/posts.py:296-296 | a thread page starts with the root, and the replies follow by time and then id |
| ThreadPage.JudgeRows | app/request/routers/posts.py:249-285 | the loop finds which rows the thread rules let through and which they cover |
| ThreadPage.ThreadResponse | app/request/routers/posts.py:181-306 | 404, or the cards of exactly the posts whose whole chain passes the thread rules, in thread order, covered where the rules say so |
| ThreadPage.ThreadCoversNsfw | app/request/routers/posts.py:298-304 | the item of an NSFW post in a thread reaches only an adult viewer and is rendered without body and references |
| Counters.CountsAlways | app/request/routers/likes.py:16-93 | in every reachable store `like_count` is the number of Like rows, zero without an engagement row, and likes only point at published posts that are not reposts |
| Counters.UnpublishedOwnsNothing | app/labeling/flows/reply/tasks.py:15-177 | a post that is not published has no feed row, embedding, engagement row, like, reply or repost notification, and no part in a recount |
| Database.BackfillFolloweePosts | app/request/feed/backfill.py:12-44 | the loop adds a row for each of the newest live posts that has none, keeps the rows there are, and returns how many had none |
| Database.RemoveFolloweeFromFeed | app/request/feed/backfill.py:47-59 | exactly the followee's rows leave the follower's feed |
| Database.CutEdges | app/request/routers/blocks.py:47-49 | the loop removes the edges and exactly the rows of their followees |
| Database.InsertForAll | app/labeling/flows/fanout/tasks.py:31-43 | the recipient loop ends in the same feed in every order |
| Database.ErasePosts | app/request/routers/users.py:112-116 | exactly the user's posts become deleted |
| Database.ExecTask | app/labeling/plan.py:38-41 | each labeling task commits exactly its step to the stored rows or leaves every row alone |
| Execution.ExecuteAll | app/request/routers/posts.py:101-157 | any sequence of requests and tasks, executed on the stored rows with their loops, ends in the store that the run lemmas speak about |
| Undo.UnfollowUndoesFollow | app/request/routers/follows.py:18-87 | from any reachable store, unfollowing takes back everything a follow did, backfilled rows included, except the notification |
| Undo.UnlikeUndoesLike | app/request/routers/likes.py:16-93 | from any reachable store, unliking takes back the like and its count, also through a repost |
| Undo.UnblockRestoresNoEdge | app/request/routers/blocks.py:17-78 | unblocking lifts the block; both edges and their rows stay deleted |
| Database.FindNotice | app/labeling/flows/reply/tasks.py:70-78 | the scan finds a notification about this reply or repost exactly when one is stored |
| Scheduler.RunPlan | app/labeling/plan.py:20-52 | the wave loop computes the plan's outcome, log and errors |
| Scheduler.GatherWave | app/labeling/plan.py:38-48 | every task of a wave starts, whatever the others do |
| Scheduler.WaveIsLongestChain | app/labeling/plan.py:29-33 | a task's wave is the length of the longest dependency chain ending in it |
| Scheduler.DeadlockIsReal | app/labeling/plan.py:34-36 | an empty wave with all names known means that a cycle exists |
| Scheduler.PlanCorrect | app/labeling/plan.py:20-52 | true exactly when all dependencies name tasks, the graph is acyclic and nothing started raised; each task at most once, after its dependencies, in the wave of its longest chain; a deadlock verdict is justified |
| Registry.PlanRegistry.BuildEventPlanIndex | app/labeling/registry.py:35-44 | an event is indexed exactly when a class names it, with its plans sorted by order |
| Registry.PlanRegistry.RegisterAll | app/labeling/registry.py:15-24 | however often modules are imported, no class is registered twice, all are registered, and earlier ones keep their places |
| Registry.EachPlanOnce | app/labeling/registry.py:35-44 | in such a registry an event meets each plan that names it exactly once |
| Dispatch.RegistrationOrderIrrelevant | app/labeling/registry.py:41-44 | every permutation of the six plans is indexed in the same order |
| Dispatch.DispatchEvent | app/labeling/dispatcher.py:12-36 | false without plans; otherwise every plan is executed in order and a failed event marks its post |
| Dispatch.PublishPlan | app/labeling/flows/post_publish/tasks.py:11-48 | publish waits for validate: the plan succeeds, and the post is published, exactly when neither raises |
| Dispatch.DispatchShape | app/labeling/dispatcher.py:12-36 | six plans amount to publish followed by the eight later tasks in order, whatever fails |
| Redelivery.DispatchSettles | app/labeling/dispatcher.py:12-36 | with exceptions anywhere, an existing post is never left processing, published is never left, and a processing post is published exactly when validate and publish succeeded, even if later plans fail |
| Redelivery.SettledForever | app/labeling/flows/post_publish/tasks.py:39-68 | after publish or mark-failed commits in a run, the post is never processing again under any interleaving |
| Interleaving.InterleavedSettles | app/labeling/dispatcher.py:12-36 | whatever commits between the tasks of a dispatch, the post ends not processing, and it is published exactly when it was before, validate and publish succeeded, or another delivery published it meanwhile |
| Interleaving.NoGapsIsDispatch | app/labeling/dispatcher.py:12-36 | with nothing in between, that is the dispatch of the six plans |
| Interleaving.InterleavedIsRun | app/labeling/plan.py:38-41 | an interleaved dispatch is a run, so the statements about reachable stores hold when it returns |
| Redelivery.RedeliveryIsIdempotent | app/labeling/dispatcher.py:12-36 | dispatching an event again right away, without injected exceptions, leaves exactly the same tables and verdict, from any store |
| Redelivery.ReplyTasksCommute | app/labeling/flows/reply/tasks.py:15-177 | any two of the reply tasks commute |
| Redelivery.CommitOrderIrrelevant | app/labeling/flows/reply/tasks.py:15-177 | all commit orders of the reply wave leave the same tables and give the same verdict, success |
| SafetyLabels.DispatchLabels | app/labeling/flows/safety/tasks.py:10-34 | a dispatch labels an unlabelled post exactly when its body is flagged and the safety task is not interrupted |
| SafetyLabels.FailedAndLabelled | app/labeling/flows/safety/tasks.py:10-34 | a processing post ends failed and labelled exactly when validate or publish raises and its body is flagged |
| SafetyLabels.FailedPostWithLabel | app/labeling/flows/post_publish/tasks.py:20-27 | such a post is reachable: a flagged reply whose parent is deleted before the dispatch |
| SafetyLabels.LabelledForGood | app/safety/labels.py:26-52 | once the safety task has committed for a flagged post, the label is in every later store |
| SafetyLabels.StepLabels | app/request/routers/moderation.py:113-139 | only the safety task of a flagged post and a moderator write the NSFW label of a post |
| SafetyLabels.PublishedBeforeLabelled | app/labeling/dispatcher.py:18-23 | after the first plan the post is published, still without a label unless somebody else wrote it |
| SafetyLabels.InterleavedLabels | app/labeling/flows/safety/tasks.py:10-34 | whatever commits between its tasks, a dispatch ends with an unlabelled post labelled exactly when the body is flagged and the safety task not interrupted, or the label was written meanwhile |
| SafetyLabels.PublishedUnlabelled | app/labeling/dispatcher.py:18-23 | a flagged post is published and unlabelled when its dispatch returns exactly when it was or got published, the safety task was interrupted and nobody labelled it meanwhile |
| SafetyLabels.UnlabelledFansOut | app/labeling/dispatcher.py:18-23 | with the safety task interrupted, the live unlabelled post still has a row in the feed of its author and of every follower |
| PostSearch.PostFilter | app/embedding/search.py:72-95 | the loop returns the greedy picks in order |
| PostSearch.PickedWhen | app/embedding/search.py:80-94 | a row is picked exactly when its similarity reaches 0.12, neither post nor author is labelled, fewer than two of its author are picked before it and the limit is not reached, unless it is the first pick |
| PostSearch.PicksFeasible | app/embedding/search.py:80-94 | the greedy picks are eligible, at most two per author and at most `limit` in total |
| PostSearch.Exchange | app/embedding/search.py:80-94 | a selection that uses an author less than the greedy one can swap in one of that author's picks |
| PostSearch.GreedyOptimal | app/embedding/search.py:80-94 | for any weight that descends along the rows, no feasible selection outweighs the greedy one |
| PostSearch.FilterIsOptimal | app/embedding/search.py:72-95 | for rows in descending similarity and a positive limit, no other choice within the caps has more rows or more total similarity |
| PostSearch.LimitRespected | app/embedding/search.py:93-94 | the result is within the limit exactly when the limit is positive, or zero with nothing eligible |
| PostSearch.FetchedInOrder | app/embedding/search.py:151-156 | the fetched rows are found rows in descending similarity |
| PostSearch.FetchedWindow | app/embedding/search.py:27-35 | the window holds four rows per row asked for, at least forty, and what it leaves out is no closer |
| Ranking.ApplyAuthorDiversity | app/ranking/scorer.py:51-65 | scores are damped in place in list order and the stable descending sort is returned |
| Ranking.RankCandidates | app/ranking/scorer.py:68-82 | score, sort, damp, sort again |
| Ranking.KthPostScaled | app/ranking/scorer.py:58-64 | an author's k-th post, from zero, is scaled by `max(floor, decay^k)` |
| Ranking.RankedIsSortedPermutation | app/ranking/scorer.py:68-82 | every candidate comes out once, sorted by final score |
| Ranking.AuthorOrderCondition | app/ranking/scorer.py:51-65 | for any decay and floor, an author's posts keep their order if and only if no score, scaled for its place, falls below the next one |
| Ranking.AuthorOrderKept | app/ranking/scorer.py:51-65 | the order is kept for every decay and floor between zero and one if and only if all of the author's scores but the last are non-negative |
| Ranking.NegativeScoresFlip | app/ranking/scorer.py:21-82 | under the shipped weights two unseen out-of-network posts of a default account, 27 and 34 hours old, swap places |
| Ranking.TopStays | app/ranking/scorer.py:51-65 | the best item before damping stays first, unscaled, if its score is non-negative |
| Ranking.ScoreNonNegative | app/ranking/scorer.py:21-48 | an unseen candidate scores at least zero, whatever its engagement, affinity and similarity, if and only if recency and in-network boost make up for the credibility penalty |
| Ranking.HomeNonNegative | app/ranking/scorer.py:27-48 | under the shipped weights it does so at every age home admits if and only if `0.25 * cred_factor` is at most `0.28 / 49`, plus `0.22` for a followed author |
| Ranking.DefaultAccountNegative | app/ranking/scorer.py:21-48 | an unseen 47-hour-old out-of-network post of a default account at similarity 0.12 scores below zero |
| Ranking.RecencySignal | app/ranking/scorer.py:9-14 | between zero and one, one for a post of the future |
| RankSignals.SeenCosts | app/ranking/scorer.py:41-41 | having been seen changes a score by exactly the weight, discounted out of network |
| RankSignals.DecliningCosts | app/ranking/scorer.py:42-43 | declining an author changes the scores of that author's posts alone, by the weight |
| RankSignals.FollowingHelps | app/ranking/scorer.py:28-32 | following an author other than oneself raises that author's posts by the boost |
| RankSignals.ReactionsHelp | app/ranking/scorer.py:17-18 | likes and replies count alike, through their sum |
| RankSignals.SimilarityHelps | app/ranking/scorer.py:40-40 | similarity counts in proportion, a missing one as zero |
| RankSignals.CredibilityCosts | app/ranking/scorer.py:33-44 | the penalty falls linearly from full at zero credibility to none at a hundred |
| RankSignals.RecencyFalls | app/ranking/scorer.py:9-14 | one hour over one hour plus the age |
| RankSignals.NewPostScores | app/ranking/scorer.py:35-47 | a new post without any signal scores the recency weight |
| RankSignals.ShippedNumbers | app/ranking/scorer.py:35-48 | what each signal is worth under the shipped weights |
| RankSignals.SeenStandsBelow | app/ranking/scorer.py:68-77 | before damping a seen post stands below an unseen one that is otherwise equal |
| Blending.Blend | app/request/feed/blender.py:17-43 | the two loops compute the blended list |
| Blending.BlendKeepsBothSources | app/request/feed/blender.py:17-43 | distinct ids, every in-network post first, then new out-of-network posts up to the quota and all of them below it |
| Blending.OonShare | app/request/feed/blender.py:17-43 | For You takes at most thirty-five out-of-network posts in a hundred but always one, and leaves none out while there is room |
| Blending.InsertWhoToFollow | app/request/feed/blender.py:46-56 | the module lands in sixth place or at the end and the items keep their order |
| Blending.DedupeConversations | app/request/feed/pipeline.py:41-61 | the loop computes the deduplicated list |
| Blending.DedupeIsFilter | app/request/feed/pipeline.py:41-61 | the result is the order-preserving selection of the items that stand for their conversation |
| Blending.DedupeOnePerConversation | app/request/feed/pipeline.py:41-61 | every conversation is shown by exactly one item: its root if present, otherwise its first reply |
| Blending.DedupeIdempotent | app/request/feed/pipeline.py:41-61 | deduplicating twice changes nothing |
| Policy.EvaluateRules | app/policy/engine.py:35-48 | one drop drops, else one interstitial covers; the name is the first rule with that verdict |
| Policy.VerdictIgnoresOrder | app/policy/engine.py:35-48 | permuting the rules keeps the verdict |
| Policy.HomeVerdictCarriesOver | app/policy/rules.py:189-234 | a home verdict other than drop is also the following and the thread verdict |
| Policy.AdultFromBirthday | app/core/age.py:9-24 | adulthood starts on the eighteenth birthday |
| Policy.NsfwInNetwork | app/policy/rules.py:35-63 | an in-network NSFW candidate that is not dropped is covered and its viewer an adult |
| Policy.HomeDropsLabeledOon | app/policy/rules.py:174-186 | home drops labeled out-of-network candidates |
| Visibility.ThreadAnswer | app/policy/rules.py:223-234 | the thread list lets a candidate through if and only if its author is neither blocked, muted nor suspended, it is open to the viewer, holds no muted word and fits the viewer's age |
| Visibility.FollowingAnswer | app/policy/rules.py:207-220 | Following asks this, and that the post is not hidden and a reply's parent would be shown |
| Visibility.HomeAnswer | app/policy/rules.py:189-204 | home asks this, at most 48 hours, and out of network no reply and no limiting label |
| Visibility.CoverAnswer | app/policy/rules.py:49-63 | what is let through is covered exactly when it or its author has the label and it is in-network |
| Visibility.ForYouShowsWorthy | app/request/feed/pipeline.py:462-503 | nothing else is on a For You page |
| Visibility.FollowingShowsWorthy | app/request/feed/pipeline.py:462-503 | the Following rows are exactly the cache rows that pass, covered where the label asks for it |
| Visibility.ThreadShowsWorthy | app/request/routers/posts.py:248-296 | a thread has an item for a post exactly when it climbs to the root through live posts that pass |
| Visibility.PagesRespectStore | app/request/feed/pipeline.py:88-110 | over every reachable store no feed or thread shows a post of a blocked author, or one the viewer may not read |
| Visibility.OnePerThread | app/request/feed/pipeline.py:41-61 | over every reachable store a For You page never has two posts of one thread |
| Visibility.BlockersStayVisible | app/request/routers/posts.py:217-222 | blocks by others change neither the viewer's query nor the thread |
| FeedPipeline.ApplyPolicy | app/request/feed/pipeline.py:462-503 | the loop keeps, in order, what the rules do not drop, with its mark |
| FeedPipeline.RunPipeline | app/request/feed/pipeline.py:555-640 | the stages of a surface in order, and the page with its next cursor |
| FeedPipeline.PostItems | app/request/feed/router.py:61-88 | each candidate is rendered, covered ones without body and references |
| FeedPipeline.NsfwIsCovered | app/request/feed/pipeline.py:462-516 | on both surfaces every returned NSFW post goes to an adult viewer, is in-network and is rendered without body and references |
| FeedPipeline.ForYouConversations | app/request/feed/pipeline.py:606-633 | For You shows distinct posts, one per conversation in rank order: the root, or the reply with the highest final score |
| FollowingFeed.ThunderCandidates | app/request/feed/pipeline.py:188-221 | from any reachable store the cache yields a keyset page of in-network candidates under their stored root |
| FollowingFeed.FollowingPage | app/request/feed/pipeline.py:519-529 | a Following page descends strictly below its cursor; when nothing is dropped it is the keyset page of the cache and continues exactly when rows remain |
| FollowingFeed.FollowingCoversNsfw | app/request/feed/router.py:61-88 | the NSFW guarantee for Following over any reachable store |
| SafeSurfaces.ForYouOverStore | app/request/feed/pipeline.py:643-671 | For You over any reachable store and search result: distinct posts, one per conversation |
| SafeSurfaces.FeedHonoursLabels | app/request/feed/pipeline.py:296-313 | with the post labels read from the store, a labelled post is returned only covered and to an adult |
| SafeSurfaces.FlaggedStaysCovered | app/labeling/flows/safety/tasks.py:10-34 | from the commit of the safety task on, whatever else happens, For You, Following and threads show the items of a flagged post only covered and to an adult |
| Exposure.FlaggedIsLabelled | app/labeling/flows/safety/tasks.py:10-34 | from that commit on the post has a text and a stored label |
| Exposure.LabelledExposure | app/request/feed/pipeline.py:391-415 | in any reachable store a page of For You, Following or a thread prints the text of a labelled post if and only if the post is not deleted and an item on it without the label quotes or reposts it |
| Exposure.LabelOrigin | app/safety/labels.py:26-52 | in any reachable store a labelled post has a flagged text or was labelled by a moderator |
| Exposure.RepostExposes | app/request/schemas.py:187-204 | a page with a repost of a labelled post prints its text, unless a moderator labelled the repost or its author |
| Exposure.ShownToMinor | app/request/post_cards.py:15-38 | a run after which the thread of a repost prints the labelled text uncovered to a minor |
| Exposure.TabExposes | app/request/routers/users.py:180-235 | paging through a profile tab prints a text exactly when the post is on the tab, or undeleted and quoted or reposted there, whatever labels are stored |
| Pagination.WalkEnumerates | app/request/routers/users.py:197-230 | walking a fixed list yields all of it in order in `max(1, ceil(n / limit))` requests |
| Pagination.WalkOverChanges | app/request/routers/users.py:197-230 | over changing tables the rows descend strictly, and whatever was there throughout is listed |
| Profiles.GetUserPosts | app/request/routers/users.py:180-235 | 404, or the keyset page of the tab, which for a private profile and a stranger is empty without a cursor |
| Profiles.TabAudience | app/request/routers/users.py:180-213 | the owner and followers see all published, undeleted posts of a tab; anyone else the public ones, and none of a private account |
| Profiles.TabEnumerated | app/request/routers/users.py:180-235 | paging through a tab lists exactly the posts the viewer may see on it, once each |
| Profiles.WalkOverRun | app/request/routers/users.py:180-235 | whatever commits between the pages, a post that is on the tab at every request, so that the profile stays open, is listed by the end and nothing is listed twice |
| Sessions.TokenLife | app/request/auth.py:155-183 | over any later run an issued access token authenticates exactly while unexpired, its account active, and no logout-all, password change, erasure or suspension lies in between |
| Sessions.VersionCountsBumps | app/request/routers/auth.py:128-148 | the token version never falls and counts exactly those events |
| Sessions.SuspensionIsFinal | app/request/routers/moderation.py:63-110 | a token from before such an event never authenticates again, whatever follows |
| Sessions.SpentOnce | app/request/auth.py:95-152 | over any run a refresh token is rotated or logged out successfully at most once |
| Sessions.SessionsBalance | app/request/auth.py:59-152 | unrevoked tokens: one more on sign-up or login, unchanged on rotation, one fewer on a successful logout, none after logout-all, password change or erasure |
| Sessions.SessionsOverRun | app/request/routers/auth.py:39-148 | the same accounting over whole runs |
| Sessions.ByEmail | app/request/routers/auth.py:97-98 | the login lookup finds an account with the address if there is one |
| Credentials.LoginAnswer | app/request/routers/auth.py:92-105 | a login succeeds if and only if an active account has the address and the password and the drawn token is new; the session is for that account and nothing else changes |
| Credentials.SignUpAnswer | app/request/routers/auth.py:39-71 | when a sign-up succeeds, and the account and session it makes |
| Credentials.TwoRivals | app/request/routers/auth.py:44-48 | a taken name is a conflict exactly when one account holds it; handle and address of two different accounts are an unhandled error |
| Credentials.RefreshAnswer | app/request/auth.py:129-152 | a rotation succeeds exactly for a stored, unrevoked, unexpired token of an active user, and spends it |
| Credentials.IssuedTo | app/request/auth.py:79-95 | from any store a pair is only issued to who signs up, who gives the stored password of an active account, or who rotates such a token |
| Credentials.TokenOrigin | app/request/auth.py:60-77 | in every run each stored refresh token was issued by an event, to its user |
| Credentials.UniqueOverRun | app/request/routers/auth.py:44-48 | no run brings two accounts with one handle or one address |
| Credentials.AuthenticateAnswer | app/request/auth.py:155-184 | which token is accepted, and which refusal is 403 |
| Credentials.ChangePasswordAnswer | app/request/routers/auth.py:137-148 | a password change takes an accepted token and the stored password; it revokes every token of the user |
| Credentials.EraseEffect | app/request/routers/users.py:98-128 | erasure takes the same and a free suffix; the account is renamed and logged out |
| Credentials.ModerationAnswer | app/request/deps.py:8-45 | suspending and reinstating take a moderator or admin, granting a role an admin; nobody suspends himself |
| Credentials.BumpCause | app/request/routers/moderation.py:63-87 | who can end all sessions of a user: the user, with the stored password where one is asked for, and another moderator or admin |
| Credentials.NewPasswordDecides | app/request/routers/auth.py:137-148 | after a password change, whatever follows short of another, a login succeeds with the new password alone |
| Sessions.RevokeAllRefreshTokens | app/request/auth.py:111-119 | exactly the user's tokens are revoked |
| Sessions.ExecuteAll | app/request/routers/auth.py:39-148 | any sequence of session requests, executed on the stored rows, ends in the store that the run lemmas speak about |
| RateLimit.IncrWithExpire | app/request/rate_limit.py:15-31 | the counter rises within its window, starts again after it, and nothing happens when Redis fails |
| RateLimit.Check | app/request/rate_limit.py:41-64 | 429 exactly above the limit, open when Redis fails, other keys untouched |
| RateLimit.WindowAdmitsFirst | app/request/rate_limit.py:15-64 | in any run with any outages, of the requests answered in one window exactly the first `limit` pass |
| RateLimit.WindowBound | app/request/rate_limit.py:15-64 | for any sequence of request times each window accepts at most `limit` counted requests |
| RateLimit.IntervalBound | app/request/rate_limit.py:15-64 | any interval as long as the window passes at most `2 * limit - 1` counted requests |
| RateLimit.BoundIsReached | app/request/rate_limit.py:15-64 | the bound is tight for every limit and every window of two units or more |
| Notifications.CollectRows | app/request/routers/notifications.py:60-74 | groups hold each liker's rows in order, and the places follow first appearance |
| Notifications.GroupPosts | app/request/routers/notifications.py:95-102 | the posts of a group, each once, with their previews |
| Notifications.PresentNotifications | app/request/routers/notifications.py:57-114 | one entry per opening row, in order, showing its group |
| Notifications.OthersOnce | app/request/routers/notifications.py:71-74 | every other notification opens exactly one entry, in its order |
| Notifications.LikesOnce | app/request/routers/notifications.py:64-70 | all likes of one liker form one entry, at the first of them |
| Notifications.PostsConserved | app/request/routers/notifications.py:95-102 | the post list has no duplicate and holds exactly the posts its members name |
| Notifications.GroupUnread | app/request/routers/notifications.py:105-113 | a group is unread exactly when a member is |
| Notifications.RowsConserved | app/request/routers/notifications.py:57-114 | the entries stand for as many rows as there are |
| LikeGroups.LikesTogether | app/request/routers/notifications.py:52-54 | two likes share an entry if and only if their liker ids are equal, without ids the handles, without either they are the same row |
| LikeGroups.OthersAlone | app/request/routers/notifications.py:71-74 | any other notification shares its entry with none |
| LikeGroups.LikerEntry | app/request/routers/notifications.py:57-114 | the likes by one name form one entry, opened by the first, with the posts they name once each and their previews, unread exactly when one of them is |
| LikeGroups.PostsInOrder | app/request/routers/notifications.py:95-102 | the posts of an entry come in the order in which its rows first name them |
| LikeGroups.EntriesInOrder | app/request/routers/notifications.py:60-74 | the entries keep the order of the rows that open them |
| Trends.AddRow | app/request/routers/trends.py:52-57 | the inner loop raises exactly the row's buckets, in any tag order |
| Trends.Aggregate | app/request/routers/trends.py:44-57 | each bucket counts its posts, likes and distinct authors |
| Trends.GetTrends | app/request/routers/trends.py:28-81 | the top `limit` of one item per tag by score descending and term ascending |
| Trends.TrendScore | app/request/routers/trends.py:59-70 | an item counts the rows with its tag and their distinct authors; its score is twice the authors plus the posts plus the likes |
| Trends.TrendOrder | app/request/routers/trends.py:71-81 | the list descends by score, then by dictionary order of the terms, and leaves nothing out that outranks what it shows |
| Trends.TrendsIgnoreOrder | app/request/routers/trends.py:46-81 | permuting the rows, and any set or dictionary order, gives the same list |
| Trends.PostCountsConserved | app/request/routers/trends.py:46-77 | post counts add up to the distinct tags per post, and authors never exceed posts |

## Left out

- Transactions are atomic: isolation anomalies inside one transaction, connection failures after a partial commit, and SQL and Redis internals. INCR and EXPIRE are one step.
- Dispatch passes the tables from one labeling task to the next as a value; `Database.ExecTask` ties each task to the stored rows. Coroutines of one wave, and anything else, interleave at commits, not inside a transaction.
- Ids are natural numbers and timestamps integers, ordered as the database orders them; wall clocks, random tokens, password hashing and JWT signing are parameters or opaque, with distinct tokens.
- Cursor text: decoding is taken to invert encoding, and pages are cut on `(time, id)` keys.
- Scores and similarities are reals, so rounding is not modelled; `log1p` is a parameter; embedding vectors are opaque and depend on the text alone.
- `str.casefold` is spelled out for the characters whose fold can be part of a built-in keyword; `str.lower`, for muted keywords, is a function the caller supplies. The hashtag pattern is not part of this model, a trend row carries its tag set.
- The handlers and tasks behind `Execution.ExecuteAll`, `Database.ExecTask` and `Sessions.ExecuteAll` have no rows of their own: each is proved equal to its step, and the rows state what follows from the steps.
- The hydrators of a feed are one function that keeps ids, sources, parents, roots and times, in `Exposure` one that also reads post labels and references from the store; the query hydrators are the fields of the query.
- For You cursors come from the last item in rank order, so no completeness over pages is claimed; Following claims it only when the policy drops nothing.
- `reply_count` and `repost_count` are not global invariants, because deletion, hiding and erasure do not maintain them; a recount stores the true number at that moment.
- Database.BlockUser: does not refresh the blocked account's health after the commit, because that is a second transaction on columns the model does not carry.
- Sessions.EraseAccount: covers the account and its sessions; the deletion of the posts in the same transaction is `Database.ErasePosts`, and clearing display name and bio is not modelled.
- Author labels are a part of the hydrated candidate without a table of their own; moderators may write and the account health may add them. Labels of posts are stored, whoever writes them.
- An item of a thread carries the labels that the rules saw; the endpoint leaves that field of the card empty.
- Authorisation of requests on posts and follows is a user id; roles appear only where sessions need them. Audit events and impressions are left out.
- The liked-posts tab has the same keyset query over like times, which the like rows of this model do not carry.
- `labels_for_targets`, previews of notification bodies, reports, who-to-follow suggestions, search by text, the reveal endpoint and profile cards are thin reads and would only add easy members.
