# libbruce in Dafny

libbruce keeps an ordered multimap in a B-tree whose pages are immutable blocks.
Internal nodes carry a key-sorted queue of pending edits; queries push edits
down one level at a time, and `write()` pushes them down in bulk when a queue
outgrows its area. Leaves hold sorted pairs; the duplicates of a leaf's last key
spill into a linked chain of overflow nodes. Every branch stores an item count,
so that `seek(n)` and `rank()` work by offset. `write()` flushes the queues,
splits what is too large, gives every node in memory a new block, and returns a
mutation that is later committed or aborted.

This project models that tree, its pages, its cursor, its block store and the
SHA-1 that names blocks, and proves that they do what they are for.

## How it is built

A tree has one abstract meaning. For each key the leaf holds a bag of values and
the queues on the way to it hold edits. `Multimap.Step` says what one edit may do
to the bag of its key: INSERT adds a value, UPSERT replaces one value or adds one,
REMOVE_KEY drops one value if there is any, REMOVE_KV drops one equal pair if
there is one. Which value is replaced or dropped is left open. `Meaning.Denotes`
holds of the bags that the pending edits can reach. Every operation is proved
against this meaning. `Contents.Content` is the in-order sequence of items with all
pending edits applied; offsets, ranks and cursors are proved against it.

Functions specify each operation of the source with its branches and edge cases,
and lemmas prove what the operations promise. The operations themselves are methods of
classes, with the loops, cursors and fields of the source, each proved equal to
its function:

- `Trees.TreeImpl` (tree_impl.cpp): root, ids of the blocks read, blocks to put.
  Its methods also keep the account of reading: every block is read at most once,
  and what was not read is still in the store (`Blocks.Fair`, `Blocks.Backed`).
- `LeafNodes.LeafNode`, `OverflowNodes.OverflowNode` (linked objects with a
  footprint), `InternalNodes.InternalNode`: the node classes.
- `Iterators.TreeIterator`: the cursor over the root path.
- `Serializing.NodeParser` and the serializers, which fill byte arrays.
- `Storage.Mem`, `Storage.Mutation`, `Storage.FinishMutation`: store, commit, abort.
- `Sha1`: five registers and a circular buffer of 16 words, in arrays.
- `Operating.Session`: a tree opened from its root id, called, written and finished.

| files | subject |
|---|---|
| Types, Multimap, Tree, Meaning | keys, edits, bags, nodes, routing, what a tree means |
| Overflow, Leaves, Merging | chains, edits on a leaf, the one-pass merge of `applyAll` |
| Lookup, Flags, Queueing, Sessions, Reloading | apply and find over whole runs; storing and opening again |
| AsWritten, AsStored | the same runs and sessions with the erase loop and the push-down as they stand in the code |
| Contents, Counting, Seeking, Ranking, Guarantees | in-order contents, counts, seek, rank |
| Scanning, Promises, Steadiness | seek over edits with any flags, and when its counts are right |
| Deepening, Acting | what seek and rank leave, and runs with them |
| BranchLists, Splitting, Flushing, Writing, Growing, Paging | `write()`: flush, splits, root growth, page bound |
| Pushing, Passing, Opening | when a flush gets through the overflow chains |
| Readiness, Trust, Liveliness | which trees may be written |
| Swapping, Overtaking, Limits, Reaching, ChainMerging, Dropping | what the code does not meet, and the exact conditions under which it does |
| Blocks, Storage, Collecting, Committing, Trees, LeafNodes, OverflowNodes, InternalNodes, Operating | pages in a store, the objects, commit and abort |
| Cursors, Standing, Iterators | places, iterators from begin, find and seek, iteration |
| Codec, Serializing, Pages | bytes of pages |
| Sha1Standard, Sha1, Sha1Known | FIPS 180-4, the code for it, and a known digest |

A key is represented by its place in the comparator's total order, an `int`:
this assumes, as the code does, that keys are not empty and that the comparison
is a total order in which only identical keys are equal. The absent first
separator is `None`. Values are sequences of bytes.

## Where the code falls short, exactly

Each of these is proved on the code as it is, with the condition under which the
code is right, for all inputs, and with a concrete input that shows the failure.

- A deep edit goes straight to the leaf and overtakes edits of its key that are
  still queued below (`Swapping.OvertakingExact` for two edits,
  `Overtaking.DeepExact` for a tree, `Overtaking.DeepLoses`).
- `applyAll` never looks at the overflow chain: for one edit `Limits.ChainExact`,
  for a list `ChainMerging.ListExact`; `Limits.ChainLoses` loses both values of a
  leaf, and in `ChainMerging.ClearAlone` two edits that are harmless one by one
  lose them together.
- `overflowRemove` goes on iterating after an erase (`Limits.EraseExact`,
  `Limits.RemoveExact`); `Limits.EraseWrong` gives a chain that loses two values
  and one that is read past its end. Which runs this spoils says
  `AsWritten.EditedExact`.
- `pushDownOverflowNodeSize` appends to the next overflow node without reading it
  (`src/libbruce/src/tree_impl.cpp:436-443`): if a node is stored there that is not in
  memory it follows a null pointer. For a chain `Pushing.MovableExact`, for a leaf
  `Passing.LeafExact`; in `Passing.InsertCrashes` a tree is opened, takes one
  insert, and cannot be written.
- It also moves a value that is larger than a page on for ever
  (`Pushing.FreshExact`, `Pushing.NeverEnds`).
- The assertion that an old overflow chain finds a right leaf
  (`src/libbruce/src/tree_impl.cpp:401-404`) holds if and only if the last part of the
  split fits a page (`Splitting.StrandedExact`): always with at most half a block
  of pairs at the last key (`Splitting.NeverStranded`), never with more than fit a
  page (`Splitting.Stranded`). In `Passing.MergeStrands` `applyAll` adds such a pair
  in front of a chain.
- `updateBranch` removes a child whose count is zero although edits still wait in
  its queue (`Dropping.DropExact`); `Dropping.DropLoses` has one insert queued
  without guarantee, `Dropping.DropLosesCounted` a guaranteed removal before it.
- `write()` puts a new root over the split branches at most four times and then
  throws "Block size is too small for these keys"
  (`src/libbruce/src/tree_impl.cpp:319-332`): `Growing.WriteExact` says when, and
  `Growing.WriteThrows` counts it for separators of one size.
- To count a branch, seek applies an edit that is not guaranteed deep, past the
  guaranteed ones that wait below (`src/libbruce/src/tree_impl.cpp:813-834`). These
  may then no longer do what the counts expect of them: the count is right if and
  only if they do so in all (`Scanning.DeltaExact`). In `Promises.DeltaMiscounts`
  the deep edit changes no answer and the count is off by one; which edits spare
  which promises says `Promises.SparesExact`.
- Looking at a branch so may also change the order of two values of a key
  (`Deepening.LookReorders`), and nothing else where the edits may overtake what
  waits below (`Deepening.SeekContent`, `Deepening.RankedContent`).
- `rank()` reads the stored count of a branch before the edits waiting for it are
  applied, and in an overflow node leaves out the pairs in front
  (`Ranking.RankExact`, `Ranking.RankStale`).
- The cursor stores the count of the child it enters in branch 0
  (`Cursors.CursorCounts`, `Cursors.CursorMiscounts`).
- A page does not say which edits are guaranteed, so a tree read back no longer
  counts them (`Reloading.ReloadedCounted`, `Reloading.ReloadedMiscounts`).
- A page size is too large, and the final assertion of serializing fails, if a
  removal by key carries a value (`Codec.SizeExact`, `Codec.SizeStray`). The
  calls of a tree never queue such an edit (`src/libbruce/src/tree_impl.cpp:34`);
  the serializer does not rely on it.
- `src/libbruce/src/serializing.h:129-132` says that the split index of an internal node
  makes the branches below it exceed half a block. The scan starts with the full
  size, so the index is always 1, whatever the node (`Splitting.SplitIndexIsOne`);
  the model follows the code.

## Model

| member | source | states |
|---|---|---|
| `Lookup.RunExplained` | src/libbruce/src/tree_impl.cpp:94-136 | For every sequence of edits and gets on a search-ordered tree of any height: each bag the tree stands for afterwards is reached by a run of the plain multimap that takes the same edits in call order and agrees with every answer. No flag, count or shape is assumed. A removal that reaches an overflow chain is the intended one; `AsWritten.RanAsIntended` says when the code does the same. |
| `Lookup.GetAgrees` | src/libbruce/src/tree_impl.cpp:602-671 | From a tree with nothing pending, some run of the plain multimap agrees with every get: a value is returned exactly when the bag is not empty, and it is one of the bag. Removals in chains are the intended ones, as above. |
| `AsWritten.EditedExact` | src/libbruce/src/tree_impl.cpp:177-257 | An edit on a leaf, with the erase loop as written, does what is intended if and only if it does not reach the chain, or the chain meets the condition of `Limits.RemoveExact`. |
| `AsWritten.RanAsIntended` | src/libbruce/src/tree_impl.cpp:94-136 | A run of edits and gets with the loop as written, through apply, pushes and finds at any height, gives the tree and the answers of the intended run whenever each removal that reaches a chain meets that condition when it does. |
| `AsWritten.CalmRun` | src/libbruce/src/tree_impl.cpp:94-136 | It does if, when the calls begin, no removal of a pair waits for, or is asked of, a key that has a chain: no call starts a chain or moves one to another key. |
| `AsWritten.RanExplained` | src/libbruce/src/tree_impl.cpp:94-136 | So the code as written stays inside its vectors in every run in which each removal that reaches a chain meets the condition, and follows the plain multimap as in `Lookup.RunExplained`. |
| `AsWritten.MixedAsIntended` | src/libbruce/src/tree_impl.cpp:276-300 | The same for a batch of the flush that goes to an internal child. |
| `AsWritten.CalmMix` | src/libbruce/src/tree_impl.cpp:276-300 | It is if no removal of a pair in the batch is for a key that has a chain. |
| `AsStored.FlushedAsIntended` | src/libbruce/src/tree_impl.cpp:346-380 | The whole flush with both loops as written, batches, push-down, splits and removed branches, gives the intended branches wherever it gets through and each removal that reaches a chain meets its condition. |
| `AsStored.CalmFlush` | src/libbruce/src/tree_impl.cpp:346-380 | Which holds at every node visited if, before write(), no removal of a pair waits for a key that has a chain. |
| `AsStored.StoryExplained` | src/libbruce/src/tree_impl.cpp:310-344 | So sessions of the code as written, any number of them, end in the intended tree and follow the plain multimap over all their edits and answers, if no session begins with such a removal waiting or asks for one, and each write() meets none of the exceptions. |
| `Lookup.GetFits` | src/libbruce/src/tree_impl.cpp:602-617 | A get answers from every bag the tree then stands for. |
| `Standing.GetFirst` | src/libbruce/src/tree_impl.cpp:602-660 | get answers with the value of the first item of the key in the contents, or with nothing if and only if there is none; find leaves its place on that item, in memory, on a path for which nothing waits. |
| `Lookup.FindStep` | src/libbruce/src/tree_impl.cpp:640-671 | Finding a key moves edits down but never makes the tree stand for a bag it did not stand for. |
| `Lookup.FindSettles` | src/libbruce/src/tree_impl.cpp:640-671 | After a find no edit of the key is pending anywhere on its path. |
| `Lookup.PendIsRange` | src/libbruce/src/tree_impl.cpp:754-768 | The queue bounds that findPendingEdits takes from the fork are the cuts at the branch's separators. |
| `Contents.FindContent` | src/libbruce/src/tree_impl.cpp:640-671 | Finding leaves the in-order contents exactly as they were, duplicates included. |
| `Contents.ContentDenoted` | src/libbruce/src/tree_impl.cpp:736-752 | The contents are, at every key, one of the bags the tree stands for. |
| `Contents.ContentSorted` | src/libbruce/src/tree_impl.cpp:640-671 | The contents come out in key order and inside the node's key range. |
| `Flags.AnswersIgnoreFlags` | src/libbruce/src/tree_impl.cpp:94-136 | Two runs whose edits differ in guaranteed flags only, from trees that differ in flags, counts, ids and what is loaded only, give the same answers and trees that again differ in no more. |
| `Tree.RouteIs` | src/libbruce/src/internal_node.cpp:82-97 | With strictly increasing separators FindInternalKey returns branch i if and only if the key lies in the range of branch i. |
| `Tree.RangeIsRouted` | src/libbruce/src/tree_impl.cpp:276-300 | The per-branch lower-bound ranges partition the queue: an edit is in the range of branch i exactly when FindInternalKey returns i. |
| `Tree.RangeOn` | src/libbruce/src/tree_impl.cpp:276-300 | A branch's range holds all edits of the keys routed to it, in order, and none of another key. |
| `Trees.FetchedExact` | src/libbruce/src/tree_impl.cpp:476-506 | Exactly the children that are not in memory and receive edits are fetched. |
| `Trees.TreeImpl.LoadBlocksToEdit` | src/libbruce/src/tree_impl.cpp:476-506 | Afterwards every child that receives edits is in memory, no other one was read, and each read is noted once. |
| `Queueing.QueueOrderHarmless` | src/libbruce/src/tree_impl.cpp:126-132 | Edits queued one by one: the queue is sorted, keeps every key's arrival order, and run left to right has on any content exactly the effects of the edits in arrival order. |
| `Queueing.EffectIsPerKey` | src/libbruce/src/priv_types.h:77-90 | What a list of edits may do to a content is what its edits of each key may do to that key's bag: edits on different keys commute. |
| `Swapping.OvertakingExact` | src/libbruce/src/tree_impl.cpp:119-123 | A table of edit pairs decides, in both directions, whether the later may be run before the earlier without an outcome the multimap does not allow. |
| `Flushing.DeepStep` | src/libbruce/src/tree_impl.cpp:119-123 | A deep edit in a tree of any height is one step of the multimap if it may overtake every edit of its key queued on the way. |
| `Overtaking.DeepLoses` | src/libbruce/src/tree_impl.cpp:119-123 | For each pair that may not be swapped, a tree that the deep edit changes in a way no single step explains. |
| `Overtaking.DeepExact` | src/libbruce/src/tree_impl.cpp:119-123 | With any list of edits waiting, a deep edit is a step of the multimap on all that the tree stands for if and only if one finite set of bags, computed from the queues and the leaf, is part of another. |
| `Leaves.ApplyStep` | src/libbruce/src/tree_impl.cpp:138-216 | leafInsert and leafRemove, with a chain or without: one step of the multimap on the edit's key, and every other key as it was; a removal in the chain is the intended one (`AsWritten.EditedExact`). |
| `Leaves.ApplyKeeps` | src/libbruce/src/tree_impl.cpp:138-216 | They keep pairs sorted, a pair in front of every chain, chain values under the leaf's last key, every chain count right, and add no key but the edit's; a removal in the chain is the intended one. |
| `Leaves.ApplyCounts` | src/libbruce/src/tree_impl.cpp:138-216 | The item count moves by exactly what the step does to the bag, also when a chain is pulled in or one value is pulled back; a removal in the chain is the intended one. |
| `Overflow.PullTakesLast` | src/libbruce/src/tree_impl.cpp:259-274 | overflowPull takes the last value of the last node, keeps the order of the rest and every count, and unlinks a node it empties. |
| `Overflow.RemoveDropsOne` | src/libbruce/src/tree_impl.cpp:226-257 | What overflowRemove is meant to do drops one occurrence, if there is any, and keeps the chain well counted; the loop as written is `Limits.RemoveExact`. |
| `Limits.RemoveExact` | src/libbruce/src/tree_impl.cpp:226-257 | overflowRemove as written, over the whole chain, does what is intended if and only if in the first node that holds the value it is not last and does not stand behind the value after it. |
| `Limits.EraseExact` | src/libbruce/src/tree_impl.cpp:230-239 | The erase loop stays inside the vector and erases just the first occurrence if and only if the value is absent, or not last and absent behind its second next position. |
| `Limits.EraseValues` | src/libbruce/src/tree_impl.cpp:230-239 | The loop itself, tied to the function that the exact condition is about. |
| `Limits.EraseWrong` | src/libbruce/src/tree_impl.cpp:230-239 | Four values of which one removal takes two, and two values where it runs past the end. |
| `Limits.ChainExact` | src/libbruce/src/leaf_node.cpp:81-162 | On a leaf with a chain, applyAll with one edit is a step of the multimap at every key if and only if the edit is below the last key, or is one of the listed harmless ones at or behind it: there a removal may take a pair only if another one of the key stands in the leaf. |
| `Limits.ChainLoses` | src/libbruce/src/leaf_node.cpp:81-162 | A leaf with one pair and one value in its chain, and a removal by key that takes both away. |
| `ChainMerging.ListExact` | src/libbruce/src/leaf_node.cpp:81-162 | For a sorted list: every key gets what its edits mean and the chain stays with its key, if and only if merging the edits behind the last key leaves nothing there, and merging those of the last key with the pairs of that key alone leaves something that, with the chain, these edits can reach. A leaf is left unless the chain has lost all its pairs. |
| `ChainMerging.CoveredExact` | src/libbruce/src/leaf_node.cpp:81-162 | Without removals of single pairs at the last key that comes to this: each upsert and each removal finds a pair of the key in the merged part. |
| `ChainMerging.ClearFits` | src/libbruce/src/leaf_node.cpp:81-162 | A list of harmless edits, none of which takes a pair of the last key or a value an upsert brought there, gives every key what it means. |
| `ChainMerging.ClearAlone` | src/libbruce/src/leaf_node.cpp:81-162 | Without that: an upsert and the removal of its value, each harmless, lose the values in the chain. |
| `Dropping.DropExact` | src/libbruce/src/tree_impl.cpp:541-544 | When a child is flushed to a count of zero its branch goes, and the list then stands for what the branch stood for if and only if, for each key held or queued, every run of its pending edits on its values ends with nothing. |
| `Dropping.HollowExact` | src/libbruce/src/tree_impl.cpp:541-544 | That computation, over held values and queues, decides for every search-ordered node whether it stands for nothing. |
| `Dropping.DroppedCounts` | src/libbruce/src/tree_impl.cpp:541-544 | A node with no child in memory and a queue that fits is dropped if and only if its item count is zero. |
| `Dropping.DropLoses` | src/libbruce/src/tree_impl.cpp:541-544 | A tree whose only pair, queued without guarantee in an internal child, is gone after the flush. |
| `Dropping.DropLosesCounted` | src/libbruce/src/tree_impl.cpp:541-544 | A tree with right counts that add up to zero, by a guaranteed removal, whose insert is gone after the flush. |
| `Merging.MergeRefines` | src/libbruce/src/leaf_node.cpp:81-162 | applyAll without a chain: sorted in, sorted out, and every key's new bag is reached from its old bag by its edits in order. |
| `Merging.MergeIsOneByOne` | src/libbruce/src/leaf_node.cpp:81-162 | While no key ever has two values, applyAll gives exactly the leaf that leafInsert and leafRemove give, one edit at a time. |
| `LeafNodes.LeafNode.ApplyAll` | src/libbruce/src/leaf_node.cpp:81-162 | The two-cursor loop computes that merge in place, and the running size is the size of the new pairs. |
| `LeafNodes.LeafNode.Insert` | src/libbruce/src/leaf_node.h:37-42 | The pair goes behind the pairs of its key, and the running size stays exact. |
| `LeafNodes.LeafNode.Erase` | src/libbruce/src/leaf_node.h:44-48 | One pair goes, the others keep their order, and the running size stays exact. |
| `Trees.TreeImpl.LeafInsert` | src/libbruce/src/tree_impl.cpp:138-175 | The object takes the edit as specified, pulling a whole chain in when needed; sizes stay exact and each overflow node is read once. |
| `Trees.TreeImpl.LeafRemove` | src/libbruce/src/tree_impl.cpp:177-216 | The object takes the removal as specified, refilled from its chain; sizes stay exact and each overflow node is read once. A removal in the chain is the intended one. |
| `Trees.TreeImpl.Apply` | src/libbruce/src/tree_impl.cpp:94-136 | Shallow and deep edits from the root down, tied to the function that the run theorem is about; nothing unread is lost from the store. A removal in a chain is the intended one. |
| `OverflowNodes.OverflowNode.Pull` | src/libbruce/src/tree_impl.cpp:259-274 | On linked objects: the value taken and the chain left are those of the specification, in the old footprint. |
| `OverflowNodes.OverflowNode.PushDown` | src/libbruce/src/tree_impl.cpp:430-449 | On linked objects, all in memory: values beyond the block move behind the next node's values, a missing next node is made, and the recursion ends if every value fits a page. |
| `OverflowNodes.OverflowNode.SetNext` | src/libbruce/src/overflow_node.cpp:37-46 | The link counts what is linked, and an empty node is not linked. |
| `Splitting.PushDownKeeps` | src/libbruce/src/tree_impl.cpp:430-449 | Pushing down keeps the bag and the count of the chain, and its order if there was no next node. |
| `Splitting.PushDownFits` | src/libbruce/src/tree_impl.cpp:430-449 | Every node is then within the block size, if the nodes behind the first were and every value fits a page of its own. |
| `Pushing.PushedExact` | src/libbruce/src/tree_impl.cpp:430-449 | Pushing down as written, with the next node not read, gives the specified chain exactly where the code gets through it. |
| `Pushing.MovableExact` | src/libbruce/src/tree_impl.cpp:436-443 | It gets through a chain of values that fit if and only if nothing is stored behind the nodes in memory, or the values of these nodes need no further page. |
| `Pushing.FreshExact` | src/libbruce/src/tree_impl.cpp:408-413 | It gets through a new chain if and only if every value fits a page. |
| `Passing.LeafExact` | src/libbruce/src/tree_impl.cpp:348-355 | With values of at most half a block, write() gets through a leaf if and only if its chain is such a chain, or not in memory. |
| `Passing.InsertCrashes` | src/libbruce/src/tree_impl.cpp:436-443 | A tree that can be written, one insert of a key that has a chain, and write() follows the pointer of a node not read. |
| `Opening.RunLeavesReady` | src/libbruce/src/tree_impl.cpp:346-355 | After any calls a flush gets through every leaf, if before the first call each chain has one pair in front of it and room in its first node for the inserts that wait for its key or will be asked for. |
| `Splitting.SplitsInside` | src/libbruce/src/serializing.cpp:304-328 | When every value fits a page the split index is inside the node, so the recursion ends. |
| `InternalNodes.InternalNode.ItemCount` | src/libbruce/src/internal_node.cpp:29-42 | The two loops add up stored counts and the deltas of guaranteed edits. |
| `InternalNodes.InternalNode.FindInternalKey` | src/libbruce/src/internal_node.cpp:82-97 | In a node of any key range that holds the key, with its separators in order, the branch returned is the one branch whose range holds the key (`Tree.RouteIs`). |
| `Counting.ContentCount` | src/libbruce/src/internal_node.cpp:29-42 | With right stored counts and truthful guaranteed edits, itemCount is the length of the in-order contents, at any height. |
| `Guarantees.RunHonest` | src/libbruce/src/tree_impl.cpp:94-136 | A run of truthful guaranteed edits and gets keeps every stored count right, at any height. |
| `Guarantees.RunSeeks` | src/libbruce/src/tree_impl.cpp:673-734 | At any point of such a run: the root counts the items, seek(m) lands on item m for every m below the count, and the rank of a leaf position it lands on is m. |
| `Seeking.SeekLands` | src/libbruce/src/tree_impl.cpp:673-734 | seek(m) lands on the m-th item of the in-order contents (pairs, then chain, then next leaf), pending edits included, and leaves the contents as they were, where edits that are not guaranteed wait for leaves only; the other trees are `Steadiness.TrustedSeeks`. |
| `Scanning.SeekBeyond` | src/libbruce/src/tree_impl.cpp:673-734 | On the same trees it finds a place if and only if there are more than m items. |
| `Seeking.HonestSeekable` | src/libbruce/src/tree_impl.cpp:813-834 | Its precondition holds at any height when all queued edits are guaranteed and truthful. |
| `Seeking.LeafChildrenSeekable` | src/libbruce/src/tree_impl.cpp:813-834 | Its precondition holds for any edits when all children are leaves, if those flagged guaranteed are truthful. |
| `Scanning.CountIs` | src/libbruce/src/internal_node.cpp:29-42 | On any tree with right stored counts, whatever its flags: itemCount is the length of the contents plus what the waiting edits promise by their flags less what each does to the bag of its leaf when its turn comes. |
| `Scanning.DeltaExact` | src/libbruce/src/tree_impl.cpp:813-834 | pendingRankDelta on a child of any height, with any flags: stored count plus reported delta is the number of items then in the child if and only if the edits that then wait for it or below it do in all what their flags promise. |
| `Promises.DeltaCounts` | src/libbruce/src/tree_impl.cpp:813-834 | It is where the edits below are guaranteed and keep their promises: in the order of arrival if the batch is guaranteed, and otherwise after the whole batch, which goes deep. |
| `Promises.SparesExact` | src/libbruce/src/tree_impl.cpp:813-834 | The table of the edits that may run before a promise of the same key without breaking it, on any bag; in both directions. |
| `Promises.DeltaMiscounts` | src/libbruce/src/tree_impl.cpp:813-834 | An edit that harms no answer, promises kept in the order of arrival, right counts; and the branch is counted one short. |
| `Promises.MixedSeeks` | src/libbruce/src/tree_impl.cpp:673-734 | seek(m) on a tree of any height whose root has edits of any flags waiting, by a condition on each key before the call: all its edits keep their promises in the order of arrival, those below the root are guaranteed, and what goes deep spares them. It reads item m of the contents, and finds no place if and only if there are not so many items. |
| `Steadiness.TrustedSeeks` | src/libbruce/src/tree_impl.cpp:673-734 | The same with edits of any flags at every level, where below a branch each of them does to the number of items what is expected of its flag, whichever edits go deep first. |
| `Steadiness.FirmSeeks` | src/libbruce/src/tree_impl.cpp:673-734 | If that holds of the whole tree, the contents also have as many items after seek as before. |
| `Steadiness.UpsertsSteady` | src/libbruce/src/tree_impl.cpp:813-834 | It holds of upserts of a key that is there, with any flags. |
| `Steadiness.RemovalsSteady` | src/libbruce/src/tree_impl.cpp:813-834 | And of removals that are not guaranteed, of a key that is not there. |
| `Scanning.SeekReads` | src/libbruce/src/tree_impl.cpp:673-734 | The general form: wherever each look that the scan may take at the root counts right and those below change no number of items, the place reads item m of the contents, is in memory on a path for which nothing waits, and exists if and only if there are more than m items. |
| `Deepening.SeekStep` | src/libbruce/src/tree_impl.cpp:673-734 | Seeking never makes the tree stand for a bag it did not stand for, where each edit that goes deep may overtake what waits below it. |
| `Deepening.SeekContent` | src/libbruce/src/tree_impl.cpp:673-734 | The contents after seek are then at every key a bag the tree stood for, and exactly the contents before if no key ever holds two values. |
| `Deepening.RankedOrdered` | src/libbruce/src/tree_impl.cpp:778-811 | rank leaves a search-ordered tree in the form that parsing leaves. |
| `Deepening.RankedItem` | src/libbruce/src/tree_impl.cpp:778-811 | After rank the place reads the same item, and its path is settled if it was. |
| `Deepening.RankedStep` | src/libbruce/src/tree_impl.cpp:778-811 | rank never makes the tree stand for a bag it did not stand for, where each edit that goes deep may overtake what waits below it. |
| `Deepening.RankedContent` | src/libbruce/src/tree_impl.cpp:778-811 | The contents after rank are then at every key a bag the tree stood for, and exactly the contents before if no key ever holds two values. |
| `Deepening.RankedSame` | src/libbruce/src/tree_impl.cpp:778-811 | They are exactly the contents before, duplicates included, if left of the path no edit goes deep into an internal child. |
| `Deepening.LookReorders` | src/libbruce/src/tree_impl.cpp:813-834 | Otherwise they need not be: two inserts of one key, one queued above the other, change places. |
| `Acting.ActsExplained` | src/libbruce/src/tree_impl.cpp:18-44 | The run theorem with seeks and ranks among the calls, at any height: each bag the tree stands for afterwards is reached by a run of the plain multimap that takes the same edits, agrees with every answer, and holds every item a seek has read at that time; where each edit that goes deep may overtake what waits below it. |
| `Acting.FriendlyExplained` | src/libbruce/src/tree_impl.cpp:18-44 | By a condition before the run: of the edits that wait or will be asked for, either all are guaranteed or no two of one key harm each other. |
| `Ranking.RankIsOffset` | src/libbruce/src/tree_impl.cpp:778-811 | On a settled path rank is the number of items before the leaf position. |
| `Ranking.RankOfSeek` | src/libbruce/src/tree_impl.cpp:778-811 | rank undoes seek wherever seek stops on a leaf pair. |
| `Standing.RankOfFind` | src/libbruce/src/tree_impl.cpp:778-811 | The rank of a found key is the position of its first item in the contents. |
| `Ranking.RankExact` | src/libbruce/src/tree_impl.cpp:778-811 | On any search-ordered tree, with any flags and counts: rank at a place is the offset of its item if and only if the drifts of the branches left of its path add up to what rank omits: nothing on a leaf pair, and in a chain the pairs of the leaf and the values of the nodes before. A drift is worked out from the stored count, the flags of the waiting edits, and the effect of each edit on the bags of the leaves. |
| `Ranking.RankIs` | src/libbruce/src/tree_impl.cpp:778-811 | At any level of the tree rank is the offset plus these drifts, less what it omits. |
| `Ranking.RankStale` | src/libbruce/src/tree_impl.cpp:799-805 | A tree with one item, found by get, whose rank comes out as 1. |
| `Splitting.SplitLeafContent` | src/libbruce/src/tree_impl.cpp:382-428 | The leaves of a split with their chains read as the original pairs and then the original chain. |
| `Splitting.SplitLeafOrdered` | src/libbruce/src/tree_impl.cpp:382-428 | No key is in two leaves; separators are strictly increasing first keys. |
| `Splitting.NeverStranded` | src/libbruce/src/tree_impl.cpp:401-404 | With at most half a block of pairs at the last key, the assertion that an old overflow has a right leaf never fails. |
| `Splitting.StrandedExact` | src/libbruce/src/tree_impl.cpp:401-404 | In front of a chain it holds if and only if what the cuts leave for the last turn fits a page. |
| `Splitting.Stranded` | src/libbruce/src/tree_impl.cpp:401-404 | With a chain and more pairs at the last key than fit a page, it fails. |
| `Passing.MergeStrands` | src/libbruce/src/leaf_node.cpp:81-162 | An insert that applyAll puts in front of a chain, as it should, after which the assertion fails. |
| `Splitting.NoRightPart` | src/libbruce/src/serializing.cpp:256-300 | A leaf that is too large has no right part if and only if its pairs below the last key fit half a block. |
| `Splitting.SplitLeafFits` | src/libbruce/src/serializing.cpp:256-300 | After a split every leaf page and every overflow page is within the block size. |
| `Trees.TreeImpl.MaybeSplitLeaf` | src/libbruce/src/tree_impl.cpp:382-428 | The recursion over right leaves gives that split, every new chain is pushed down and the recursion ends; what was not read is still in the store. |
| `Splitting.SplitIndexIsOne` | src/libbruce/src/serializing.cpp:351-364 | The scan for the split index stops at the second branch. |
| `Splitting.SplitInternalConserves` | src/libbruce/src/tree_impl.cpp:508-531 | Branches and queues of the parts concatenate to the originals. |
| `Splitting.SplitInternalOrdered` | src/libbruce/src/tree_impl.cpp:508-531 | Each part is search-ordered, with every edit in its part's key range, and separators strictly increasing. |
| `Splitting.SplitInternalMeans` | src/libbruce/src/tree_impl.cpp:508-531 | Every key's values and pending edits are what they were. |
| `Splitting.SplitInternalFits` | src/libbruce/src/serializing.cpp:330-365 | With room for one branch beside the queue area, every part fits its page, queue included. |
| `Flushing.ApplyEditsStep` | src/libbruce/src/tree_impl.cpp:276-300 | Applying a branch's edits, guaranteed ones into its queue and others to the leaves, takes every key's edits in order, where a deep edit overtakes only what it may and a merge on a leaf with a chain meets the condition of `ChainMerging.ListExact`. |
| `Flushing.FlushMeans` | src/libbruce/src/tree_impl.cpp:346-380 | Flushing gives a search-ordered list of branches that stands for nothing the tree did not stand for, at any height, wherever the code gets through the leaves and no step of the flush overtakes what it may not, merges against the condition of `ChainMerging.ListExact`, or drops a node that stands for something. No flag or count is assumed. |
| `Flushing.FlushPasses` | src/libbruce/src/tree_impl.cpp:346-380 | Where that holds, the code gets through the whole flush: no null pointer, no endless push-down, no failed assertion, no chain left behind no pair. |
| `Trees.TreeImpl.FlushAndSplitRec` | src/libbruce/src/tree_impl.cpp:346-380 | The recursion on the objects gives that list wherever the code gets through it, whatever becomes of the meaning, and every block it reads is noted once. |
| `Trees.TreeImpl.FlushChildren` | src/libbruce/src/tree_impl.cpp:365-375 | The loop flushes each original loaded branch once, in order, and never an inserted one. |
| `Trees.TreeImpl.UpdateBranch` | src/libbruce/src/tree_impl.cpp:533-553 | The branch is replaced by the split or removed, its neighbours keep their places, and the loop goes on behind what was inserted. |
| `Writing.WriteMeans` | src/libbruce/src/tree_impl.cpp:310-344 | write() gives a search-ordered tree which stands for nothing the old tree did not stand for: flush, queues, splits, removed branches and root growth included, whatever flags and counts are. The code must get through the leaves, the flush meet none of the exceptions above, and the root keep a branch (`Writing.Writable`). |
| `Growing.WriteRoot` | src/libbruce/src/tree_impl.cpp:319-334 | If the flush leaves one branch its child is the new root; if it leaves more and they fit one page, the new root is the node over exactly these branches. |
| `Growing.WriteExact` | src/libbruce/src/tree_impl.cpp:319-332 | On any tree: write() does not throw for a block that is too small if and only if four rounds leave one branch, where a round takes one branch off the front, again and again, until the others fit one page. |
| `Growing.WriteThrows` | src/libbruce/src/tree_impl.cpp:319-332 | With separators of one size and m branches to a page it throws if and only if the flush leaves more than 1 + 4 (m - 1) branches. |
| `Writing.WriteCounted` | src/libbruce/src/tree_impl.cpp:310-344 | If every stored count was that of its child, it is so in the tree that write() gives, under whatever edits and flags, where the code gets through the flush. |
| `Writing.WriteSame` | src/libbruce/src/tree_impl.cpp:310-344 | For a key that never holds two values the content after write() is exactly the content before, under the same conditions. |
| `Readiness.ReadyWritable` | src/libbruce/src/tree_impl.cpp:310-379 | Which trees these are, by a condition on the tree before the call, with any flags and counts: every chain in memory can be pushed down without reading and has at most half a block of pairs in front of it (`Passing.LeafReady`); on the paths that the flush can reach, each edit that goes deep may overtake what is queued below it and none is at or behind the key of a chain; and every internal node reached holds more items than there are removals that may strike it. Blocks have at least 60 bytes. |
| `Readiness.ReopenedWritable` | src/libbruce/src/tree_impl.cpp:310-355 | A tree opened again, with any edits stored in its queues at any level, and then edited, meets them as long as the queue of its root fits its area. |
| `Opening.LeafWritable` | src/libbruce/src/tree_impl.cpp:310-355 | A tree of one leaf, stored or not, may be written after any calls for which its chain has room. |
| `Readiness.LeafChildrenFlush` | src/libbruce/src/tree_impl.cpp:276-380 | With nothing but leaves below the root, each ready for the flush, any edits may be flushed that are not at or behind the key of a chain, whatever flags and counts are: a leaf that is dropped holds nothing. |
| `Liveliness.LivelyWritable` | src/libbruce/src/tree_impl.cpp:533-553 | Another condition, for trees whose queued edits are all guaranteed and truthful whichever values they pick: with ready leaves, right counts, a positive stored count in every internal node and an item in the tree, write() meets none of the exceptions, even where it empties children. |
| `Paging.WriteFits` | src/libbruce/src/tree_impl.cpp:310-344 | Page bound: with pairs of at most half a block, a block of at least 60 bytes and 34 bytes beside the queue area, every leaf, overflow and internal node that write() leaves in memory is within the block size, queues included, whatever edits are queued, where the code gets through the flush. |
| `Pages.PlannedIsSize` | src/libbruce/src/serializing.cpp:256-370 | The sizes that splits go by are the sizes of the pages made of the nodes' bytes. |
| `Pages.NothingRefused` | src/libbruce/src/be/mem.cpp:45-56 | So the engine never refuses a block of write() for its size. |
| `Codec.RoundTrip` | src/libbruce/src/serializing.cpp:29-240 | For all three node types: parsing the page of a node reads every byte and none outside, and gives the node back up to first separator and flags; serializing that gives the same bytes, as many as were computed. |
| `Codec.LeafWrittenOut` | src/libbruce/src/serializing.cpp:374-412 | The bytes of one leaf page, written out. |
| `Codec.OverflowWrittenOut` | src/libbruce/src/serializing.cpp:413-444 | The bytes of one overflow page. |
| `Codec.InternalWrittenOut` | src/libbruce/src/serializing.cpp:445-518 | The bytes of one internal page with an edit of each kind. |
| `Codec.PageCanonical` | src/libbruce/src/serializing.cpp:225-240 | Whatever page parses was read to its end and is the page of the node it gives, if and only if it is not an internal page that claims to have no branch. |
| `Codec.SizeExact` | src/libbruce/src/serializing.cpp:330-370 | The computed size is never less than the bytes written, and equal if and only if no removal by key carries a value. |
| `Codec.SizeStray` | src/libbruce/src/serializing.cpp:330-370 | A page with one such removal, whose size is too large. |
| `Serializing.ParseNode` | src/libbruce/src/serializing.cpp:225-240 | The parser with its moving offset reads, throws, or would leave the page exactly as specified, for every sequence of bytes. |
| `Serializing.NodeParser.ParseLeafNode` | src/libbruce/src/serializing.cpp:34-78 | All keys, then all values put with their keys, then the link. |
| `Serializing.NodeParser.ParseEdits` | src/libbruce/src/serializing.cpp:153-195 | Types, keys, then values of those that have one; no edit is guaranteed. |
| `Serializing.SerializeNode` | src/libbruce/src/serializing.cpp:374-530 | The buffer allocated by the computed size holds exactly the bytes of the node, and the final assertion holds if and only if no removal by key carries a value. |
| `Serializing.WriteAndRead` | src/libbruce/src/serializing.cpp:225-240 | Written and read by the methods themselves: the node without its first separator and flags. |
| `Pages.BytesSay` | src/libbruce/src/serializing.cpp:225-240 | The bytes of a page of the tree parse to that page, and two pages have the same bytes only if they are the same. |
| `Operating.BytesOnce` | src/libbruce/src/serializing.cpp:225-240 | The bytes of a root page, and the bytes stored under the ids that are named below it, determine the tree that is read back. |
| `Reloading.ReloadedSame` | src/libbruce/src/serializing.cpp:109-200 | A tree stored and read back stands for exactly the same bags. |
| `Reloading.ReloadedCounted` | src/libbruce/src/serializing.cpp:192 | Its stored counts are still right if and only if no queue below the root holds guaranteed edits that change its count. |
| `Reloading.ReloadedMiscounts` | src/libbruce/src/serializing.cpp:192 | One guaranteed insert queued below the root: the counts are right before the tree is stored and wrong afterwards. |
| `Sessions.HistoryExplained` | src/libbruce/src/tree_impl.cpp:310-344 | Over any number of sessions of calls, write and reopening, with any flags and counts, every bag the last tree stands for is reached by one run of the plain multimap that took all edits in call order and agrees with every answer, if each write() met none of the exceptions. Removals in chains are the intended ones, as above. |
| `Collecting.CollectedStored` | src/libbruce/src/tree_impl.cpp:555-579 | After the puts all of the new tree can be read from its root id, unread parts included. |
| `Collecting.PutsIds` | src/libbruce/src/tree_impl.cpp:555-579 | Each node in memory is put once, under ids given out in a row, children before parents. |
| `Committing.NewTreeKept` | src/libbruce/src/tree_impl.cpp:581-600 | Every block reachable from the new root is newly created or was never read, and none of them is obsolete. |
| `Committing.CommitSafe` | src/libbruce/src/bruce.cpp:7-38 | After a commit the whole new tree can be read from the store. |
| `Committing.AbortSafe` | src/libbruce/src/bruce.cpp:7-38 | After an abort the store is exactly what it was before the write, and every created block was found and deleted. |
| `Storage.FinishMutation` | src/libbruce/src/bruce.cpp:7-38 | Deletes obsolete blocks after a commit and created ones otherwise, keeps in the list exactly the requests that found nothing to delete, and reports whether there were none. |
| `Storage.Mem.PutAll` | src/libbruce/src/be/mem.cpp:45-56 | Puts blocks in order; throws at the first one that is too large, after having put those before it. |
| `Storage.Mem.DelAll` | src/libbruce/src/be/mem.cpp:58-68 | Deletes what is there; a request succeeds exactly when it finds a block that no earlier request took. |
| `Storage.Mem.GetAll` | src/libbruce/src/be/mem.cpp:37-43 | Reads every block asked for, or throws exactly when one is missing. |
| `Trees.TreeImpl.Write` | src/libbruce/src/tree_impl.cpp:310-344 | The objects' write(): the flushed tree under new ids is stored in full, created ids are those put, obsolete ids are those read; a page that is too large is the only exception, and a tree never touched writes nothing. |
| `Trees.TreeImpl.CollectMutation` | src/libbruce/src/tree_impl.cpp:581-600 | The mutation lists the blocks that were put and the blocks that were read, and fails if a put failed. |
| `Committing.WriteAndFinish` | src/libbruce/src/bruce.cpp:7-38 | write() and finish on the objects: a commit leaves the new tree stored in full and no block that was read; an abort leaves the store as it was. |
| `Committing.OpenedFlushable` | src/libbruce/src/tree_impl.cpp:310-344 | A tree opened without shared blocks, edited and queried by any calls, meets what write() asks of the objects: distinct ids, search order, and that the code gets through the flush, which follows where the flush meets none of the exceptions. |
| `Operating.StoredOnce` | src/libbruce/src/tree_impl.cpp:73-87 | The store alone determines the tree that a root id stands for. |
| `Operating.PerformAll` | src/libbruce/src/tree_impl.cpp:18-44 | Any sequence of calls on a tree object, blocks loaded on demand, gives the answers and the tree of the run theorem; removals in chains are the intended ones. |
| `Operating.PerformActs` | src/libbruce/src/tree_impl.cpp:18-44 | Any sequence of edits, gets, seeks and ranks on a tree object gives the replies and the tree of `Acting.ActsExplained`. |
| `Operating.Session` | src/libbruce/src/tree_impl.cpp:310-344 | Open, call, write, finish: the answers are those of the run; after a commit the new id stands for the written tree and can be opened again, and every bag it then stands for is reached by a run of the plain multimap that took the edits and agrees with the answers, if write() met none of the exceptions; after an abort the store is unchanged. Removals in chains are the intended ones. |
| `Trees.TreeImpl.FindRec` | src/libbruce/src/tree_impl.cpp:640-671 | The descent with loading on demand gives the tree that the find lemmas are about; each block is read once. |
| `Trees.TreeImpl.RankOf` | src/libbruce/src/tree_impl.cpp:778-811 | rank on the object: the number and the tree that the rank lemmas are about. |
| `Trees.TreeImpl.SeekRec` | src/libbruce/src/tree_impl.cpp:673-734 | The scan by counts, with loading on demand, gives the place and the tree that the seek lemmas are about; each block is read once. |
| `Trees.TreeImpl.RankRec` | src/libbruce/src/tree_impl.cpp:778-811 | The climb over the path gives the number, and leaves the tree, that the rank lemmas are about; each block is read once. |
| `Standing.SeekStands` | src/libbruce/src/tree_impl.cpp:673-734 | Whatever counts and flags are: where seek stops it stands on an item, in memory, on a path for which nothing waits. |
| `Standing.StandItems` | src/libbruce/src/tree_iterator_impl.cpp:135-191 | From such a place the iteration has the contents from the offset of the place on before it. |
| `Iterators.SeekIterator` | src/libbruce/src/tree_impl.cpp:619-627 | The iterator of seek(m), in a leaf or at its index in an overflow node: it exists if and only if there are more than m items, and what remains to be read are the contents from item m on; of the tree as it was where the counts can be trusted, of the tree as seek leaves it where every look counts right. |
| `Iterators.FindIterator` | src/libbruce/src/tree_impl.cpp:609-617 | The iterator of find: it exists if and only if the key is in the contents, and what remains to be read are the contents from the first item of the key on. |
| `Iterators.TreeIterator.Next` | src/libbruce/src/tree_iterator_impl.cpp:135-145 | next() removes exactly the first of the items still to be read, across chains, leaves and levels, and the iterator is invalid after the last one. |
| `Iterators.TreeIterator.TravelToNextLeaf` | src/libbruce/src/tree_iterator_impl.cpp:175-191 | Climbs and descends to the next leaf with items, or off the tree exactly when nothing is left; the loop ends by a measure on the path. |
| `Iterators.TreeIterator.Value` | src/libbruce/src/tree_iterator_impl.cpp:57-65 | The value is that of the first item still to be read, in a leaf or in an overflow node. |
| `Iterators.ReadOn` | src/libbruce/src/tree_iterator_impl.cpp:135-145 | From any iterator to the end: every value that remained, in order, each once. |
| `Iterators.ReadFrom` | src/libbruce/src/tree_impl.cpp:619-627 | From seek(m) to the end: the values of all items but the first m. |
| `Iterators.ReadAll` | src/libbruce/src/tree_impl.cpp:836-844 | From begin() to the end: every value of the contents, in order, each once. |
| `Cursors.CursorCounts` | src/libbruce/src/tree_iterator_impl.cpp:181-187 | Stored counts stay right through a step down if and only if it goes to the first branch, or the effects of the waiting edits on the count of the child add up to zero and the first branch stores the same count. |
| `Cursors.CursorMiscounts` | src/libbruce/src/tree_iterator_impl.cpp:181-187 | An empty leaf beside one with a pair: the counts are right before the cursor enters the second leaf and wrong afterwards. |
| `Cursors.CursorPushKeeps` | src/libbruce/src/tree_iterator_impl.cpp:181-187 | A step down settles the child and changes nothing that is still to be read. |
| `Sha1Standard.RotlBits` | src/libbruce/src/sha1-fast-64.S:58-104 | A rotation by n places, as in section 3.2 of FIPS 180-4, moves bit j to bit (j + n) mod 32, for every word and j, and n from 1 to 31. |
| `Sha1Known.EmptyDigest` | src/libbruce/src/be/disk.cpp:12-42 | The digest of the empty message is da39a3ee 5e6b4b0d 3255bfef 95601890 afd80709, through all 80 rounds. |
| `Sha1Standard.PaddingIsLeast` | src/libbruce/src/be/disk.cpp:12-42 | The zeros of the padding are the least number that section 5.1.1 of FIPS 180-4 allows, and the padded length is a multiple of the block. |
| `Sha1.RoundOn` | src/libbruce/src/sha1-fast-64.S:58-104 | A round that takes its word from the circular buffer of 16 replaces the oldest word there by the next word of the 80-word message schedule, and turns the registers by it. |
| `Sha1.Rounds` | src/libbruce/src/sha1-fast-64.S:120-200 | 80 rounds in five rotating registers with the circular buffer give the working variables of the 80-word computation in section 6.1.2 of FIPS 180-4. |
| `Sha1.Compress` | src/libbruce/src/sha1-fast-64.S:47-206 | The state becomes the compression of section 6.1.2 of FIPS 180-4 of the old state and the block. |
| `Sha1.Hash` | src/libbruce/src/be/disk.cpp:12-42 | For every message whose length fits 32 bits: the fold of the compression over exactly the blocks of the padded message, from the initial value of section 5.3.1 of FIPS 180-4. |

## Left out

- Writing.WriteMeans: for a tree whose flush meets none of the exceptions listed above; the lemmas of Swapping, ChainMerging, Dropping and Pushing say exactly what these are, `Readiness` which trees are free of them.
- Liveliness.LivelyWritable: only trees in which every queued edit is guaranteed; the others are `Readiness.ReadyWritable`.
- Lookup.RunExplained: a removal of a pair that falls into an overflow chain is the intended one, not the loop at tree_impl.cpp:232-239; `AsWritten.RanExplained` is the theorem for the loop as written, under its exact condition.
- Lookup.GetAgrees: as above.
- Sessions.HistoryExplained: as above; `AsStored.StoryExplained` is the theorem for the code as written.
- Operating.PerformAll: as above.
- Operating.Session: as above; a page that is read is represented by the node it stands for, and that its bytes say the same is `Operating.BytesOnce`.
- Leaves.ApplyStep: a removal that falls into an overflow chain is the intended one; `AsWritten.EditedExact` says when the code as written does the same.
- Leaves.ApplyKeeps: as above.
- Leaves.ApplyCounts: as above.
- Overflow.RemoveDropsOne: states what is intended; what the code does is `Limits.RawRemove`.
- Trees.TreeImpl.LeafRemove: calls the intended removal.
- Trees.TreeImpl.Apply: as above.
- Trees.TreeImpl.OverflowRemove: the intended removal, as above.
- Trees.TreeImpl.PushDownOverflowNodeSize: asks that the nodes values move to are in memory; elsewhere the code follows a null pointer (`Pushing.MovableExact`).
- Writing.WriteCounted: not where a merge takes all pairs from in front of a chain, which leaves no leaf.
- Paging.WriteFits: as above; of a tree for which write() throws (`Growing.WriteExact`) nothing is claimed.
- Nodes inside `TreeImpl` are values that methods replace, so sharing of node objects by `shared_ptr` is not captured; leaf, overflow and internal nodes are also modelled as objects of their own.
- A tree object that is used again after write(): its nodes in memory keep their first separators, and the theorems about runs are for trees as parsing leaves them.
- `std::lower_bound` and `std::upper_bound` are functions, not loops.
- Calls to seek(n) at or beyond the count on a root leaf with a chain: the recursion repeats on the same node (tree_impl.cpp:705-707); the model returns no place.
- Steadiness.TrustedSeeks: for trees in which each look counts right; `Scanning.DeltaExact` says for one look when it does.
- Acting.ActsExplained: the number that rank replies is not compared with the multimap; when it is an offset says `Ranking.RankExact`.
- Rank after iteration: at the end of a leaf's pairs the leaf position stays there while the cursor is in the chain, and counts may be wrong (`Cursors.CursorCounts`).
- key() on an overflow position, which casts the overflow node to a leaf.
- skip(), which wraps seek and rank.
- Internal nodes left without branches, except that `Liveliness.LivelyWritable` says when there are none.
- Content-addressed ids, where a created id may equal an obsolete one, and retries after a deletion that throws.
- Wrap-around of 32-bit counts: totals are taken to stay below 2^32, except in pages, where counts are stored in four bytes.
- Parsing beyond the page: a read outside it is a result of its own (`Wild`), not a value.
- Disk and S3 input and output, compression, the block cache, FindShallowestInternalKey, the `binary` comparison, memory pools and printing.
