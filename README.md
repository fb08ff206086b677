# Image request cache of the city-guide app, in Dafny

This project models `ImageManager`, the image loader of the Android city-guide app. The loader
keeps three pieces of state:

- a memory table from URL to bitmap. A bitmap may be null. Entries are never evicted.
- a mirror of downloaded images in a cache directory on disk.
- a last-in-first-out stack of pending requests. Each request holds a URL, an image view and a
  progress bar.

`displayImage` paints from memory on a hit. On a miss it queues a request. `queueImage` first
drops every pending request for the same view. A single background worker pops the most recent
request and resolves it: disk copy first, else download, else null. It stores the result under
the URL even when the result is null. It delivers the result only if the view's tag still names
that URL. Delivery (`BitmapDisplayer.run`) shows a found bitmap and hides the progress bar. For
a null result it hides the view and shows the progress bar.

Files and modules:

- `widgets.dfy`: `Wrappers.Option` stands for a Java reference that may be null. `Widgets` holds
  the bitmap value, the visibility states, and the `ImageView` and `ProgressBar` classes. The
  cache updates the fields of these classes in place.
- `request_queue.dfy`: module `RequestQueue`. `ImageRef` is a pending request. The class
  `ImageQueue` holds the stack as a sequence whose last element is the top. Its methods are the
  in-place `Clean` loop, `Push` and `Pop`. The module also holds the functions that specify the
  stack (`Cleaned`, `Enqueued`, `PopN`) and the lemmas about them.
- `image_cache.dfy`: module `ImageCache`. The class `ImageManager` holds `displayImage`,
  `queueImage`, `getBitmap` and one worker iteration. The class `BitmapDisplayer` holds the
  delivery step. `Resolve` and `MirrorAfter` specify `getBitmap`. `DeliveryOutcome` specifies
  what the screen shows after delivery.

The network and the disk write are parameters of `GetBitmap` and `WorkerStep`:

- `net: Download` is what the network would answer for the popped URL. `Threw` stands for any
  exception. `Decoded(b)` is the decoder's result, and `b` is None when the body is not an image.
- `writeOk` says whether writing the mirror file would succeed.

The cache directory is the map `mirror`. It holds only the files that decode to a bitmap, keyed
by URL. So the empty file that `writeFile` leaves behind for a null bitmap is the same as no
file.

`displayImage` does not set the view's tag, and nothing in `ImageManager` does. The model
assumes that the caller of `displayImage` sets the tag to the URL; the worker only reads it. If
the tag is null, or names another URL, no result is ever delivered to the view. The view then
stays hidden with its progress bar visible until the next `displayImage` for it
(`WorkerStep` leaves both unchanged in that case).

Consequences of the code that the model makes explicit:

- A URL whose fetch gave null is cached as null forever. A later `displayImage` for that URL is
  a hit: it sets the view's image to null, shows the view and hides the progress bar
  (`HitOnStoredNull`). A delivered null does the opposite: it hides the view and
  shows the progress bar.
- A worker iteration repaints nothing unless the view's tag equals the popped URL when the
  worker checks it. A view that was reassigned to another URL before that check keeps its
  current state.

## Model

| member | source | states |
|---|---|---|
| RequestQueue.ImageQueue.Clean | src/com/codeandcoder/finalguide/extra/ImageManager.java:131-138 | the in-place index loop leaves the stack equal to `Cleaned` of the old stack: every ref for the view removed, all others kept in their order |
| RequestQueue.CleanedMembers | src/com/codeandcoder/finalguide/extra/ImageManager.java:131-138 | a ref survives Clean exactly when it was on the stack and is bound to another view |
| RequestQueue.CleanedLeavesNone | src/com/codeandcoder/finalguide/extra/ImageManager.java:131-138 | after Clean no ref for the view is left |
| RequestQueue.CleanedKeepsOtherViews | src/com/codeandcoder/finalguide/extra/ImageManager.java:131-138 | every other view keeps the same refs in the same order |
| RequestQueue.CleanedAppend | src/com/codeandcoder/finalguide/extra/ImageManager.java:131-138 | Clean distributes over concatenation, so the relative order of the kept refs is unchanged |
| RequestQueue.CleanedUnchanged | src/com/codeandcoder/finalguide/extra/ImageManager.java:131-138 | a stack with no ref for the view is left exactly as it was |
| RequestQueue.CleanedIdempotent | src/com/codeandcoder/finalguide/extra/ImageManager.java:131-138 | cleaning twice for a view equals cleaning once |
| RequestQueue.CleanedKeepsAtMostOne | src/com/codeandcoder/finalguide/extra/ImageManager.java:131-138 | Clean never creates two refs for one view |
| RequestQueue.ImageQueue.Push | src/com/codeandcoder/finalguide/extra/ImageManager.java:66 | the pushed ref becomes the top and the rest is unchanged |
| RequestQueue.ImageQueue.Pop | src/com/codeandcoder/finalguide/extra/ImageManager.java:159 | on a non-empty stack, returns the top and leaves the stack below it |
| RequestQueue.EnqueuedSoleRefOnTop | src/com/codeandcoder/finalguide/extra/ImageManager.java:62-67 | after queueImage the new ref is on top and is the only ref for its view, whatever the stack held before |
| RequestQueue.EnqueuedKeepsAtMostOne | src/com/codeandcoder/finalguide/extra/ImageManager.java:62-67 | queueImage keeps the invariant that no two pending refs share a view |
| RequestQueue.PopN | src/com/codeandcoder/finalguide/extra/ImageManager.java:155-159 | n successive pops return the top n refs, most recent first, and leave the bottom of the stack |
| RequestQueue.EnqueueAllIsAppend | src/com/codeandcoder/finalguide/extra/ImageManager.java:62-67 | queueing requests for fresh, distinct views is plain pushing |
| RequestQueue.EnqueueAllThenPopAll | src/com/codeandcoder/finalguide/extra/ImageManager.java:66 | requests queued for views A, B, C are popped C, B, A, and the stack is then back where it started |
| ImageCache.Resolve | src/com/codeandcoder/finalguide/extra/ImageManager.java:75-94 | a disk copy is returned without consulting the network; without one, any exception gives null and otherwise the decoded download is returned, null included; a bitmap only ever comes from disk or from the download |
| ImageCache.MirrorAfter | src/com/codeandcoder/finalguide/extra/ImageManager.java:84-89 | getBitmap never removes or changes a mirror file and adds one only for the URL, exactly when a non-null download was written |
| ImageCache.DiskHitIgnoresNetwork | src/com/codeandcoder/finalguide/extra/ImageManager.java:80-81 | with a disk copy, the result is the same whatever the network would answer |
| ImageCache.RepeatServedFromMirror | src/com/codeandcoder/finalguide/extra/ImageManager.java:80-89 | once a download has been written, the next lookup for the URL returns it from disk whatever the network does |
| ImageCache.ImageManager.GetBitmap | src/com/codeandcoder/finalguide/extra/ImageManager.java:75-109 | returns `Resolve` of the old mirror and updates the mirror to `MirrorAfter` |
| ImageCache.DeliveryOutcome | src/com/codeandcoder/finalguide/extra/ImageManager.java:197-207 | the view is visible exactly when a bitmap was found and the progress bar is visible exactly when none was |
| ImageCache.DeliveryDependsOnlyOnPresence | src/com/codeandcoder/finalguide/extra/ImageManager.java:197-207 | two results give the same visibilities exactly when both or neither hold a bitmap |
| ImageCache.BitmapDisplayer.Run | src/com/codeandcoder/finalguide/extra/ImageManager.java:197-207 | sets the visibilities to `DeliveryOutcome`, sets the image only for a non-null bitmap, keeps the tag |
| ImageCache.HitOnStoredNullLooksLikeSuccess | src/com/codeandcoder/finalguide/extra/ImageManager.java:45-49 | the look `displayImage` gives any memory hit equals a delivered bitmap's and differs from a delivered null's, which is the pending look |
| ImageCache.HitOnStoredNull | src/com/codeandcoder/finalguide/extra/ImageManager.java:45-49 | `displayImage` on a URL cached as null leaves the stack alone, paints null, and shows the look of a delivered bitmap rather than of a delivered null |
| ImageCache.ImageManager.constructor | src/com/codeandcoder/finalguide/extra/ImageManager.java:21-27 | a new cache has an empty table and an empty stack over the existing cache directory |
| ImageCache.ImageManager.DisplayImage | src/com/codeandcoder/finalguide/extra/ImageManager.java:44-57 | on a hit (`containsKey`, so also for a stored null) paints the stored value, view visible, progress gone, stack untouched; on a miss queues exactly as queueImage, view gone, progress visible; never changes the table, the disk or the tag |
| ImageCache.ImageManager.QueueImage | src/com/codeandcoder/finalguide/extra/ImageManager.java:59-68 | the stack becomes the old stack without the view's refs, with the new ref pushed on top; keeps at most one ref per view |
| ImageCache.ImageManager.WorkerStep | src/com/codeandcoder/finalguide/extra/ImageManager.java:145-176 | on a non-empty stack pops the top ref, stores `url -> result` even when null and no other key, and repaints the view and progress bar as `DeliveryOutcome` only when the view's tag equals the URL, otherwise leaves both untouched; on an empty stack changes nothing |
| ImageCache.RequestAfterFetchIsHit | src/com/codeandcoder/finalguide/extra/ImageManager.java:44-57 | after a miss and the worker iteration that serves it, asking again for the URL is a memory hit that leaves the stack empty and paints the stored value |
| ImageCache.FirstFetchShowsImage | src/com/codeandcoder/finalguide/extra/ImageManager.java:155-176 | from an empty cache, a tagged view and a successful download, the table and the disk hold the bitmap and the view shows it with the progress bar hidden |

## Left out

- The worker thread is not modelled: its creation, priority, lazy start, `wait`/`notifyAll` and interruption (ImageManager.java lines 25, 29, 67, 71-72, 148-152, 178-181). Each worker iteration is one atomic step, and a step on an empty stack does nothing where the thread would block.
- `runOnUiThread` is not modelled: delivery runs inside the worker step instead of later on the UI thread.
- The window between posting a delivery and running it is not modelled. The tag is checked only when the worker posts (line 167); `BitmapDisplayer.run` (lines 197-207) does not check it again. A view reassigned between the post at line 174 and the run is painted with the stale result. The atomic worker step hides this window.
- The races are not modelled: the unsynchronized `Clean` call and the unsynchronized access to the memory table from two threads.
- The choice of the cache directory (external storage or the app's cache directory) and `mkdirs` are platform I/O. The constructor takes the directory's contents as a parameter instead.
- Decoding, PNG compression, URL connections and file streams are not modelled. They are replaced by the `Download` parameter and the `writeOk` flag.
- The mirror file is named by `url.hashCode()`. The model keys the mirror by URL, so it does not capture two URLs whose hashes collide and share one file.
- A failed or partial write is treated as leaving no decodable file.
- The `Activity` parameter of `displayImage` and `queueImage` is not modelled. It is never stored or read.
- A view tag that is not a `String` is not modelled. In Java it would throw `ClassCastException` and end the worker thread. The model's tag is an optional string.
- A null URL is not modelled. `displayImage(null, …)` misses (`containsKey(null)` is false) and queues the request. The worker then throws a `NullPointerException` at `url.hashCode()` (line 76), outside the `try`. `run` catches only `InterruptedException` (line 181), so the worker thread dies and no later request is served. The model's `Url` is a non-null string.
- A view whose context is not an `Activity` is not modelled. The cast at lines 171-172 would throw `ClassCastException` and end the worker thread the same way.
- `printStackTrace` logging is not modelled.
- `MapViewActivity` is not part of this model. It is UI glue around a web view.
