/** The image cache (ImageManager): a memory table from URL to bitmap that is never evicted,
    a disk mirror consulted before the network, the request stack, and one iteration of the
    background worker that drains it. The worker thread, its wait/notify handshake and the
    hop to the UI thread are not modelled: each worker iteration is one atomic step. */
module ImageCache {
  import opened Wrappers
  import opened Widgets
  import opened RequestQueue

  /** What fetching a URL over the network yields: an exception (bad URL, no connection, I/O
      error), or the decoder's result for the response body, None when it is not an image. */
  datatype Download = Threw | Decoded(result: Option<Bitmap>)

  /** getBitmap's resolution order. `mirror` holds the decodable files of the cache directory,
      keyed by the URL they were downloaded from. */
  function Resolve(mirror: map<Url, Bitmap>, url: Url, net: Download): (r: Option<Bitmap>)
    // a decodable disk copy wins, and the network is not consulted
    ensures url in mirror ==> r == Some(mirror[url])
    // without a disk copy, any exception on the network path gives null
    ensures url !in mirror && net.Threw? ==> r == None
    // without a disk copy, the download's decoded result is returned, null included
    ensures url !in mirror && net.Decoded? ==> r == net.result
    // a bitmap is only ever found on disk or in the download
    ensures r.Some? ==> url in mirror || net == Decoded(r)
  {
    if url in mirror then Some(mirror[url])
    else match net
      case Threw => None
      case Decoded(b) => b
  }

  /** The cache directory after getBitmap: a downloaded, non-null bitmap is written out when
      the write succeeds; a disk hit, an exception, a null decode or a failed write leave no
      new decodable file. */
  function MirrorAfter(mirror: map<Url, Bitmap>, url: Url, net: Download, writeOk: bool): (m: map<Url, Bitmap>)
    ensures forall u :: u in mirror ==> u in m && m[u] == mirror[u]
    ensures forall u :: u in m && u != url ==> u in mirror
    ensures url in m <==> url in mirror || (writeOk && Resolve(mirror, url, net).Some?)
  {
    if url !in mirror && writeOk && net.Decoded? && net.result.Some? then
      mirror[url := net.result.value]
    else
      mirror
  }

  /** A URL whose disk copy exists resolves the same whatever the network would have done. */
  lemma DiskHitIgnoresNetwork(mirror: map<Url, Bitmap>, url: Url, net1: Download, net2: Download)
    requires url in mirror
    ensures Resolve(mirror, url, net1) == Resolve(mirror, url, net2) == Some(mirror[url])
  {
  }

  /** Once a download has been written to the mirror, the next getBitmap for that URL returns
      the same bitmap from disk, whatever the network does then. */
  lemma RepeatServedFromMirror(mirror: map<Url, Bitmap>, url: Url, net: Download, writeOk: bool, later: Download)
    requires writeOk && Resolve(mirror, url, net).Some?
    ensures Resolve(MirrorAfter(mirror, url, net, writeOk), url, later) == Resolve(mirror, url, net)
  {
  }

  /** What a view and its progress bar show. */
  datatype Shown = Shown(view: Visibility, bar: Visibility)

  /** What BitmapDisplayer.run leaves on screen for a fetch result. */
  function DeliveryOutcome(bitmap: Option<Bitmap>): (o: Shown)
    ensures o.view == Visible <==> bitmap.Some?
    ensures o.bar == Visible <==> bitmap.None?
    ensures o.view != Invisible && o.bar != Invisible
  {
    if bitmap.Some? then Shown(Visible, Gone) else Shown(Gone, Visible)
  }

  /** What displayImage leaves on screen on a memory hit, whatever the stored value. */
  const HitOutcome := Shown(Visible, Gone)

  /** What displayImage leaves on screen while a request is pending. */
  const PendingOutcome := Shown(Gone, Visible)

  /** The delivered outcome depends on nothing but whether a bitmap was found. */
  lemma DeliveryDependsOnlyOnPresence(a: Option<Bitmap>, b: Option<Bitmap>)
    ensures DeliveryOutcome(a) == DeliveryOutcome(b) <==> (a.Some? <==> b.Some?)
  {
  }

  /** A memory hit looks like a delivered bitmap even when the stored value is null, while a
      delivered null looks like a request still pending. */
  lemma HitOnStoredNullLooksLikeSuccess(b: Bitmap)
    ensures HitOutcome == DeliveryOutcome(Some(b))
    ensures HitOutcome != DeliveryOutcome(None)
    ensures PendingOutcome == DeliveryOutcome(None)
  {
  }

  /** A fetch result waiting to be applied to its view on the UI thread. */
  class BitmapDisplayer {
    const bitmap: Option<Bitmap>
    const imageView: ImageView
    const progressBar: ProgressBar

    constructor (b: Option<Bitmap>, i: ImageView, p: ProgressBar)
      ensures bitmap == b && imageView == i && progressBar == p
    {
      bitmap := b;
      imageView := i;
      progressBar := p;
    }

    /** Shows a found bitmap; on null hides the view and shows the progress bar instead. */
    method Run()
      modifies imageView, progressBar
      ensures Shown(imageView.visibility, progressBar.visibility) == DeliveryOutcome(bitmap)
      ensures imageView.image == if bitmap.Some? then bitmap else old(imageView.image)
      ensures imageView.tag == old(imageView.tag)
    {
      if bitmap.Some? {
        imageView.image := bitmap;
        progressBar.visibility := Gone;
        imageView.visibility := Visible;
      } else {
        imageView.visibility := Gone;
        progressBar.visibility := Visible;
      }
    }
  }

  /** The cache: the memory table, the disk mirror and the request stack. */
  class ImageManager {
    var imageMap: map<Url, Option<Bitmap>>
    var mirror: map<Url, Bitmap>
    const imageQueue: ImageQueue

    /** The request stack never holds two refs for one view. */
    ghost predicate Valid()
      reads this, imageQueue
    {
      AtMostOnePerView(imageQueue.refs)
    }

    /** A new cache: empty memory table and stack, over whatever the cache directory holds. */
    constructor (mirror: map<Url, Bitmap>)
      ensures Valid() && fresh(imageQueue)
      ensures imageMap == map[] && this.mirror == mirror && imageQueue.refs == []
    {
      imageMap := map[];
      this.mirror := mirror;
      imageQueue := new ImageQueue();
    }

    /** Paints `url` on the view from memory, or queues a fetch and shows the progress bar. */
    method DisplayImage(url: Url, imageView: ImageView, progressBar: ProgressBar)
      requires Valid()
      modifies imageQueue, imageView, progressBar
      ensures Valid()
      ensures imageMap == old(imageMap) && mirror == old(mirror)
      ensures imageView.tag == old(imageView.tag)
      ensures url in old(imageMap) ==>
        && imageQueue.refs == old(imageQueue.refs)
        && imageView.image == old(imageMap)[url]
        && Shown(imageView.visibility, progressBar.visibility) == HitOutcome
      ensures url !in old(imageMap) ==>
        && imageQueue.refs == Enqueued(old(imageQueue.refs), ImageRef(url, imageView, progressBar))
        && imageView.image == old(imageView.image)
        && Shown(imageView.visibility, progressBar.visibility) == PendingOutcome
    {
      if url in imageMap {
        imageView.image := imageMap[url];
        progressBar.visibility := Gone;
        imageView.visibility := Visible;
      } else {
        QueueImage(url, imageView, progressBar);
        imageView.visibility := Gone;
        progressBar.visibility := Visible;
      }
    }

    /** Drops the view's stale refs, then pushes the new request on top. */
    method QueueImage(url: Url, imageView: ImageView, progressBar: ProgressBar)
      requires Valid()
      modifies imageQueue
      ensures Valid()
      ensures imageQueue.refs == Enqueued(old(imageQueue.refs), ImageRef(url, imageView, progressBar))
    {
      imageQueue.Clean(imageView);
      var p := ImageRef(url, imageView, progressBar);
      imageQueue.Push(p);
      EnqueuedKeepsAtMostOne(old(imageQueue.refs), p);
    }

    /** Disk copy if there is one, else the download, written back to disk when it decoded;
        any exception gives null. */
    method GetBitmap(url: Url, net: Download, writeOk: bool) returns (bitmap: Option<Bitmap>)
      modifies this`mirror
      ensures bitmap == Resolve(old(mirror), url, net)
      ensures mirror == MirrorAfter(old(mirror), url, net, writeOk)
    {
      if url in mirror {
        return Some(mirror[url]);
      }
      match net
      case Threw =>
        bitmap := None;
      case Decoded(b) =>
        bitmap := b;
        // writeFile: a null bitmap or a failed write leaves no decodable file
        if b.Some? && writeOk {
          mirror := mirror[url := b.value];
        }
    }

    /** One worker iteration: pop the most recent request, resolve it, store the result under
        its URL even when null, and deliver it only if the view is still tagged with that URL.
        `net` is what the network would answer for the popped URL and `writeOk` whether
        writing the mirror file would succeed. */
    method WorkerStep(net: Download, writeOk: bool) returns (job: Option<ImageRef>)
      requires Valid()
      modifies this, imageQueue, Targets(imageQueue.refs)
      ensures Valid()
      ensures old(imageQueue.refs) == [] ==>
        job == None && imageQueue.refs == [] && imageMap == old(imageMap) && mirror == old(mirror)
      ensures old(imageQueue.refs) != [] ==>
        job == Some(Top(old(imageQueue.refs))) && imageQueue.refs == Below(old(imageQueue.refs))
      ensures job.Some? ==>
        var r := job.value;
        var bitmap := Resolve(old(mirror), r.url, net);
        && imageMap == old(imageMap)[r.url := bitmap]
        && mirror == MirrorAfter(old(mirror), r.url, net, writeOk)
        && r.view.tag == old(r.view.tag)
        && if r.view.tag == Some(r.url) then
             && Shown(r.view.visibility, r.bar.visibility) == DeliveryOutcome(bitmap)
             && r.view.image == (if bitmap.Some? then bitmap else old(r.view.image))
           else
             unchanged(r.view, r.bar)
    {
      if imageQueue.refs == [] {
        return None;
      }
      var imageToLoad := imageQueue.Pop();
      var bitmap := GetBitmap(imageToLoad.url, net, writeOk);
      imageMap := imageMap[imageToLoad.url := bitmap];
      var tag := imageToLoad.view.tag;
      if tag.Some? && tag.value == imageToLoad.url {
        var displayer := new BitmapDisplayer(bitmap, imageToLoad.view, imageToLoad.bar);
        displayer.Run();
      }
      job := Some(imageToLoad);
    }
  }

  /** A miss queues the request; once the worker has handled it, asking again for the same URL
      is a memory hit that paints the stored value and leaves the stack alone, whatever the
      fetch produced. */
  method RequestAfterFetchIsHit(cache: ImageManager, url: Url, view: ImageView, bar: ProgressBar,
                                net: Download, writeOk: bool)
    requires cache.Valid() && cache.imageQueue.refs == [] && url !in cache.imageMap
    modifies cache, cache.imageQueue, view, bar
    ensures cache.Valid() && cache.imageQueue.refs == []
    ensures cache.imageMap == old(cache.imageMap)[url := Resolve(old(cache.mirror), url, net)]
    ensures view.image == cache.imageMap[url]
    ensures Shown(view.visibility, bar.visibility) == HitOutcome
  {
    cache.DisplayImage(url, view, bar);
    EnqueuedSoleRefOnTop([], ImageRef(url, view, bar));
    CleanedUnchanged([], view);
    var job := cache.WorkerStep(net, writeOk);
    cache.DisplayImage(url, view, bar);
  }

  /** An empty cache asked for a URL whose view is tagged with it, with the network answering
      with a decodable image: the table and the disk both end up holding the bitmap, and the
      view shows it with the progress bar hidden. */
  method FirstFetchShowsImage(cache: ImageManager, url: Url, view: ImageView, bar: ProgressBar, b: Bitmap)
    requires cache.Valid() && cache.imageQueue.refs == [] && cache.imageMap == map[]
    requires url !in cache.mirror && view.tag == Some(url)
    modifies cache, cache.imageQueue, view, bar
    ensures cache.imageMap == map[url := Some(b)]
    ensures url in cache.mirror && cache.mirror[url] == b
    ensures view.image == Some(b) && view.visibility == Visible && bar.visibility == Gone
    ensures cache.imageQueue.refs == []
  {
    cache.DisplayImage(url, view, bar);
    EnqueuedSoleRefOnTop([], ImageRef(url, view, bar));
    CleanedUnchanged([], view);
    var job := cache.WorkerStep(Decoded(Some(b)), true);
  }

  /** A memory hit on a URL whose fetch was cached as null paints null, shows the view and hides
      the progress bar: the look of a delivered bitmap, not of a delivered null. */
  method HitOnStoredNull(cache: ImageManager, url: Url, view: ImageView, bar: ProgressBar)
    requires cache.Valid() && url in cache.imageMap && cache.imageMap[url] == None
    modifies cache.imageQueue, view, bar
    ensures cache.imageQueue.refs == old(cache.imageQueue.refs)
    ensures view.image == None
    ensures Shown(view.visibility, bar.visibility) != DeliveryOutcome(None)
    ensures forall b :: Shown(view.visibility, bar.visibility) == DeliveryOutcome(Some(b))
  {
    cache.DisplayImage(url, view, bar);
  }
}
