/**
 * The image preload cache: finished loads by key, at most one load in
 * flight per key, and the critical-image batch. A promise is an abstract
 * token; the browser's load and error events are the methods `OnLoad`
 * and `OnError`, called by whoever drives the model.
 */
module ImagePreloading {
  import opened Wrappers

  /** An image to preload: its URL and the key it is cached under. */
  datatype ImageRef = ImageRef(src: string, key: string)

  /** A load in flight: its promise and the URL its onload handler stores. */
  datatype Loading = Loading(promise: nat, src: string)

  /** What preloadImage hands back: an already resolved URL or a pending promise. */
  datatype Returned = Resolved(src: string) | Pending(promise: nat)

  class ImagePreloader {
    var loadedImages: map<string, string>
    var loadingPromises: map<string, Loading>
    var nextPromise: nat
    /** The image loads begun, in order. */
    var started: seq<ImageRef>
    const criticalImages: seq<ImageRef>
    const secondaryImages: seq<ImageRef>

    /** A key is either loaded or loading, never both, and every promise is a distinct issued one. */
    ghost predicate Valid()
      reads this
    {
      && loadedImages.Keys !! loadingPromises.Keys
      && (forall k :: k in loadingPromises ==> loadingPromises[k].promise < nextPromise)
      && (forall k, k' :: k in loadingPromises && k' in loadingPromises && k != k' ==>
            loadingPromises[k].promise != loadingPromises[k'].promise)
    }

    constructor (backgroundSrc: string, cardBackSrc: string, pitchSrc: string, pitch2Src: string)
      ensures Valid()
      ensures loadedImages == map[] && loadingPromises == map[] && started == []
      ensures criticalImages == [ImageRef(backgroundSrc, "background")]
      ensures secondaryImages == [ImageRef(cardBackSrc, "cardBack"), ImageRef(pitchSrc, "pitch"), ImageRef(pitch2Src, "pitch2")]
    {
      loadedImages := map[];
      loadingPromises := map[];
      nextPromise := 0;
      started := [];
      criticalImages := [ImageRef(backgroundSrc, "background")];
      secondaryImages := [ImageRef(cardBackSrc, "cardBack"), ImageRef(pitchSrc, "pitch"), ImageRef(pitch2Src, "pitch2")];
    }

    /**
     * preloadImage: a loaded key answers from the cache, a loading key
     * shares its promise, and only an unknown key starts a load and
     * registers exactly one new promise.
     */
    method PreloadImage(src: string, key: string) returns (r: Returned)
      requires Valid()
      modifies this
      ensures Valid()
      ensures key in old(loadedImages) ==>
        && r == Resolved(old(loadedImages)[key])
        && loadingPromises == old(loadingPromises) && nextPromise == old(nextPromise) && started == old(started)
      ensures key !in old(loadedImages) && key in old(loadingPromises) ==>
        && r == Pending(old(loadingPromises)[key].promise)
        && loadingPromises == old(loadingPromises) && nextPromise == old(nextPromise) && started == old(started)
      ensures key !in old(loadedImages) && key !in old(loadingPromises) ==>
        && r == Pending(old(nextPromise))
        && loadingPromises == old(loadingPromises)[key := Loading(old(nextPromise), src)]
        && nextPromise == old(nextPromise) + 1
        && started == old(started) + [ImageRef(src, key)]
      ensures loadedImages == old(loadedImages)
      ensures Requests(loadingPromises, nextPromise, started)
        == RequestStep(old(loadedImages).Keys, Requests(old(loadingPromises), old(nextPromise), old(started)), ImageRef(src, key))
    {
      if key in loadedImages {
        return Resolved(loadedImages[key]);
      }
      if key in loadingPromises {
        return Pending(loadingPromises[key].promise);
      }
      r := Pending(nextPromise);
      started := started + [ImageRef(src, key)];
      loadingPromises := loadingPromises[key := Loading(nextPromise, src)];
      nextPromise := nextPromise + 1;
    }

    /** img.onload of the load in flight for `key`: the URL is cached and the promise dropped. */
    method OnLoad(key: string)
      requires Valid() && key in loadingPromises
      modifies this
      ensures Valid()
      ensures loadedImages == old(loadedImages)[key := old(loadingPromises)[key].src]
      ensures loadingPromises == old(loadingPromises) - {key}
      ensures nextPromise == old(nextPromise) && started == old(started)
    {
      loadedImages := loadedImages[key := loadingPromises[key].src];
      loadingPromises := loadingPromises - {key};
    }

    /** img.onerror of the load in flight for `key`: the promise is dropped and nothing is cached. */
    method OnError(key: string)
      requires Valid() && key in loadingPromises
      modifies this
      ensures Valid()
      ensures loadedImages == old(loadedImages)
      ensures loadingPromises == old(loadingPromises) - {key}
      ensures key !in loadedImages && key !in loadingPromises
      ensures nextPromise == old(nextPromise) && started == old(started)
    {
      loadingPromises := loadingPromises - {key};
    }

    /** isImageLoaded */
    predicate IsImageLoaded(key: string)
      reads this
    {
      key in loadedImages
    }

    /** getImageUrl: the cached URL, or undefined. */
    function GetImageUrl(key: string): (r: Option<string>)
      reads this
      ensures r.Some? <==> IsImageLoaded(key)
      ensures r.Some? ==> r.value == loadedImages[key]
    {
      if key in loadedImages then Some(loadedImages[key]) else None
    }

    /**
     * preloadImage over each image in turn: the load registry, promise
     * counter and load log end as `RequestRun` says, and nothing is cached.
     * `RequestRunFrame` states what that means key by key.
     */
    method RequestAll(images: seq<ImageRef>)
      requires Valid()
      modifies this
      ensures Valid()
      ensures loadedImages == old(loadedImages)
      ensures Requests(loadingPromises, nextPromise, started)
        == RequestRun(old(loadedImages).Keys, Requests(old(loadingPromises), old(nextPromise), old(started)), images)
    {
      ghost var cached := loadedImages.Keys;
      ghost var before := Requests(loadingPromises, nextPromise, started);
      assert images[..0] == [];
      var i := 0;
      while i < |images|
        invariant Valid() && 0 <= i <= |images|
        invariant loadedImages == old(loadedImages)
        invariant Requests(loadingPromises, nextPromise, started) == RequestRun(cached, before, images[..i])
      {
        assert images[..i + 1][..i] == images[..i];
        var _ := PreloadImage(images[i].src, images[i].key);
        i := i + 1;
      }
      assert images[..|images|] == images;
    }

    /** The load in flight for `key`, if any, ends: with an error when the key is in `failing`. */
    method SettleOne(key: string, failing: set<string>)
      requires Valid()
      modifies this
      ensures Valid()
      ensures Caches(loadedImages, loadingPromises) == SettleStep(Caches(old(loadedImages), old(loadingPromises)), key, failing)
      ensures key in old(loadingPromises) && key !in failing ==>
        loadedImages == old(loadedImages)[key := old(loadingPromises)[key].src]
      ensures !(key in old(loadingPromises) && key !in failing) ==> loadedImages == old(loadedImages)
      ensures loadingPromises == old(loadingPromises) - {key}
      ensures nextPromise == old(nextPromise) && started == old(started)
    {
      if key in loadingPromises {
        if key in failing {
          OnError(key);
        } else {
          OnLoad(key);
        }
      }
    }

    /**
     * The wait for a batch: the load in flight for each of its keys ends,
     * with an error exactly when the key is in `failing`; the caches end as
     * `SettleRun` says, and no load starts. `SettleRunFrame` states what
     * that means key by key.
     */
    method SettleAll(images: seq<ImageRef>, failing: set<string>)
      requires Valid()
      modifies this
      ensures Valid()
      ensures Caches(loadedImages, loadingPromises) == SettleRun(Caches(old(loadedImages), old(loadingPromises)), images, failing)
      ensures nextPromise == old(nextPromise) && started == old(started)
    {
      ghost var before := Caches(loadedImages, loadingPromises);
      assert images[..0] == [];
      var i := 0;
      while i < |images|
        invariant Valid() && 0 <= i <= |images|
        invariant Caches(loadedImages, loadingPromises) == SettleRun(before, images[..i], failing)
        invariant nextPromise == old(nextPromise) && started == old(started)
      {
        assert images[..i + 1][..i] == images[..i];
        SettleOne(images[i].key, failing);
        i := i + 1;
      }
      assert images[..|images|] == images;
    }

    /**
     * preloadCriticalImages: every critical image is requested, then the
     * loads settle, those whose key is in `failing` with an error. The
     * batch succeeds exactly when every critical key ends up loaded, that
     * is when each was loaded before or did not fail. Loads of other keys
     * stay in flight, entries cached before stay, and the log gains one
     * load per critical key that was neither cached nor in flight.
     */
    method PreloadCriticalImages(failing: set<string>) returns (ok: bool)
      requires Valid()
      modifies this
      ensures Valid()
      ensures forall k :: k in KeysOf(criticalImages) ==> (k in loadedImages <==> k in old(loadedImages) || k !in failing)
      ensures ok <==> forall j :: 0 <= j < |criticalImages| ==> criticalImages[j].key in loadedImages
      ensures ok <==> forall j :: 0 <= j < |criticalImages| ==>
        criticalImages[j].key in old(loadedImages) || criticalImages[j].key !in failing
      ensures loadingPromises == old(loadingPromises) - KeysOf(criticalImages)
      ensures forall k :: k in old(loadedImages) ==> k in loadedImages && loadedImages[k] == old(loadedImages)[k]
      ensures forall k :: k in loadedImages && k !in old(loadedImages) ==> k in KeysOf(criticalImages) && k !in failing
      ensures forall k :: k in loadedImages && k !in old(loadedImages) ==>
        && k in KeysOf(criticalImages)
        && loadedImages[k] == (if k in old(loadingPromises) then old(loadingPromises)[k].src else FirstSrc(criticalImages, k))
      ensures started == old(started) + NewLoads(criticalImages, old(loadedImages).Keys, old(loadingPromises).Keys)
      ensures nextPromise == old(nextPromise) + |NewLoads(criticalImages, old(loadedImages).Keys, old(loadingPromises).Keys)|
      ensures Caches(loadedImages, loadingPromises) == SettleRun(
        Caches(old(loadedImages), RequestRun(old(loadedImages).Keys, Requests(old(loadingPromises), old(nextPromise), old(started)), criticalImages).loading),
        criticalImages, failing)
    {
      ghost var before := Requests(loadingPromises, nextPromise, started);
      RequestAll(criticalImages);
      SettleAll(criticalImages, failing);
      assert started == old(started) + NewLoads(criticalImages, old(loadedImages).Keys, old(loadingPromises).Keys)
        && nextPromise == old(nextPromise) + |NewLoads(criticalImages, old(loadedImages).Keys, old(loadingPromises).Keys)|
      by {
        RequestRunFrame(old(loadedImages).Keys, before, criticalImages);
      }
      RequestThenSettleFrame(old(loadedImages), before, criticalImages, failing);
      KeysOfHasEveryKey(criticalImages);
      ok := forall j | 0 <= j < |criticalImages| :: criticalImages[j].key in loadedImages;
    }

    /**
     * preloadSecondaryImages: each secondary image is requested, in order
     * (the staggered timers only delay the requests). Loads in flight are
     * kept, every other secondary key not cached gets one, and nothing
     * else changes.
     */
    method PreloadSecondaryImages()
      requires Valid()
      modifies this
      ensures Valid()
      ensures loadedImages == old(loadedImages)
      ensures loadingPromises.Keys == old(loadingPromises).Keys + (KeysOf(secondaryImages) - old(loadedImages).Keys)
      ensures forall k :: k in old(loadingPromises) ==> loadingPromises[k] == old(loadingPromises)[k]
      ensures forall k :: k in loadingPromises && k !in old(loadingPromises) ==>
        && k in KeysOf(secondaryImages)
        && loadingPromises[k].src == FirstSrc(secondaryImages, k)
        && old(nextPromise) <= loadingPromises[k].promise
      ensures started == old(started) + NewLoads(secondaryImages, old(loadedImages).Keys, old(loadingPromises).Keys)
      ensures nextPromise == old(nextPromise) + |NewLoads(secondaryImages, old(loadedImages).Keys, old(loadingPromises).Keys)|
      ensures Requests(loadingPromises, nextPromise, started)
        == RequestRun(old(loadedImages).Keys, Requests(old(loadingPromises), old(nextPromise), old(started)), secondaryImages)
    {
      ghost var before := Requests(loadingPromises, nextPromise, started);
      RequestAll(secondaryImages);
      RequestRunFrame(old(loadedImages).Keys, before, secondaryImages);
      RequestRunNewEntries(old(loadedImages).Keys, before, secondaryImages);
    }
  }

  // ---------------------------------------------------------------------
  // Batches as functions of the caches
  // ---------------------------------------------------------------------

  /** The load registry, the next promise and the log of loads begun. */
  datatype Requests = Requests(loading: map<string, Loading>, next: nat, started: seq<ImageRef>)

  /** The finished loads and the loads in flight. */
  datatype Caches = Caches(loaded: map<string, string>, loading: map<string, Loading>)

  /** One preloadImage call, for a cache holding the keys `cached`. */
  function RequestStep(cached: set<string>, r: Requests, image: ImageRef): Requests {
    if image.key in cached || image.key in r.loading then r
    else Requests(r.loading[image.key := Loading(r.next, image.src)], r.next + 1, r.started + [image])
  }

  /** preloadImage for each image, in order. */
  function RequestRun(cached: set<string>, r: Requests, images: seq<ImageRef>): Requests {
    if images == [] then r
    else RequestStep(cached, RequestRun(cached, r, images[..|images| - 1]), images[|images| - 1])
  }

  /** One load event, if a load of `key` is in flight. */
  function SettleStep(c: Caches, key: string, failing: set<string>): Caches {
    if key !in c.loading then c
    else if key in failing then Caches(c.loaded, c.loading - {key})
    else Caches(c.loaded[key := c.loading[key].src], c.loading - {key})
  }

  /** The load events of a batch, in order. */
  function SettleRun(c: Caches, images: seq<ImageRef>, failing: set<string>): Caches {
    if images == [] then c
    else SettleStep(SettleRun(c, images[..|images| - 1], failing), images[|images| - 1].key, failing)
  }

  /** The keys of a list of images. */
  function KeysOf(images: seq<ImageRef>): set<string> {
    if images == [] then {} else KeysOf(images[..|images| - 1]) + {images[|images| - 1].key}
  }

  lemma {:induction false} KeysOfHasEveryKey(images: seq<ImageRef>)
    ensures forall j :: 0 <= j < |images| ==> images[j].key in KeysOf(images)
  {
    if images != [] {
      KeysOfHasEveryKey(images[..|images| - 1]);
    }
  }

  /** `i` is the position of the first image in the list cached under `key`. */
  predicate FirstWithKey(images: seq<ImageRef>, key: string, i: int) {
    0 <= i < |images| && images[i].key == key && forall j :: 0 <= j < i ==> images[j].key != key
  }

  /** The URL of the first image in the list cached under `key`: the one whose load a batch starts. */
  function FirstSrc(images: seq<ImageRef>, key: string): (src: string)
    requires key in KeysOf(images)
    ensures exists i :: FirstWithKey(images, key, i) && images[i].src == src
    decreases |images|
  {
    var init := images[..|images| - 1];
    if key in KeysOf(init) then
      var src := FirstSrc(init, key);
      ghost var i :| FirstWithKey(init, key, i) && init[i].src == src;
      assert FirstWithKey(images, key, i) && images[i].src == src;
      src
    else
      KeysOfHasEveryKey(init);
      assert FirstWithKey(images, key, |images| - 1);
      images[|images| - 1].src
  }

  /**
   * The loads that requesting `images` in order starts: an image whose key
   * is cached, already in flight, or requested earlier in the list starts
   * none.
   */
  function NewLoads(images: seq<ImageRef>, cached: set<string>, loading: set<string>): seq<ImageRef> {
    if images == [] then []
    else
      var init := images[..|images| - 1];
      var last := images[|images| - 1];
      NewLoads(init, cached, loading)
        + (if last.key in cached || last.key in loading || last.key in KeysOf(init) then [] else [last])
  }

  /**
   * Requesting a batch keeps every load in flight, adds one for each batch
   * key neither cached nor in flight, and logs exactly those new loads.
   */
  lemma {:induction false} RequestRunFrame(cached: set<string>, r: Requests, images: seq<ImageRef>)
    ensures RequestRun(cached, r, images).loading.Keys == r.loading.Keys + (KeysOf(images) - cached)
    ensures forall k :: k in r.loading ==> RequestRun(cached, r, images).loading[k] == r.loading[k]
    ensures RequestRun(cached, r, images).started == r.started + NewLoads(images, cached, r.loading.Keys)
    ensures RequestRun(cached, r, images).next == r.next + |NewLoads(images, cached, r.loading.Keys)|
  {
    if images != [] {
      RequestRunFrame(cached, r, images[..|images| - 1]);
    }
  }

  /**
   * Each load a batch starts is registered with the URL of the first image
   * in the batch with that key, under a promise issued during the batch.
   */
  lemma {:induction false} RequestRunNewEntries(cached: set<string>, r: Requests, images: seq<ImageRef>)
    ensures forall k :: k in RequestRun(cached, r, images).loading && k !in r.loading ==>
      && k in KeysOf(images)
      && RequestRun(cached, r, images).loading[k].src == FirstSrc(images, k)
      && r.next <= RequestRun(cached, r, images).loading[k].promise
  {
    if images != [] {
      var init := images[..|images| - 1];
      RequestRunNewEntries(cached, r, init);
      RequestRunFrame(cached, r, init);
      assert KeysOf(images) == KeysOf(init) + {images[|images| - 1].key};
    }
  }

  /**
   * A batch requested and then settled: exactly its loads end, cached
   * entries stay, and a batch key joins the cache when it did not fail,
   * holding the URL of the load that was in flight for it, or else of the
   * first image in the batch with that key.
   */
  lemma RequestThenSettleFrame(loaded: map<string, string>, r: Requests, images: seq<ImageRef>, failing: set<string>)
    requires loaded.Keys !! r.loading.Keys
    ensures var c := SettleRun(Caches(loaded, RequestRun(loaded.Keys, r, images).loading), images, failing);
      && c.loading == r.loading - KeysOf(images)
      && (forall k :: k in loaded ==> k in c.loaded && c.loaded[k] == loaded[k])
      && (forall k :: k in c.loaded && k !in loaded ==>
            && k in KeysOf(images) && k !in failing
            && c.loaded[k] == (if k in r.loading then r.loading[k].src else FirstSrc(images, k)))
      && (forall k :: k in KeysOf(images) ==> (k in c.loaded <==> k in loaded || k !in failing))
  {
    var requested := Caches(loaded, RequestRun(loaded.Keys, r, images).loading);
    RequestRunFrame(loaded.Keys, r, images);
    RequestRunNewEntries(loaded.Keys, r, images);
    SettleRunFrame(requested, images, failing);
  }

  /**
   * Settling a batch whose keys are all cached or in flight ends exactly
   * those loads: a key is then loaded when it was before or did not fail,
   * newly loaded keys get the URL of their load, and other keys keep their
   * state.
   */
  lemma {:induction false} SettleRunFrame(c: Caches, images: seq<ImageRef>, failing: set<string>)
    requires c.loaded.Keys !! c.loading.Keys
    requires KeysOf(images) <= c.loaded.Keys + c.loading.Keys
    ensures SettleRun(c, images, failing).loading == c.loading - KeysOf(images)
    ensures forall k :: k in c.loaded ==> k in SettleRun(c, images, failing).loaded && SettleRun(c, images, failing).loaded[k] == c.loaded[k]
    ensures forall k :: k in SettleRun(c, images, failing).loaded && k !in c.loaded ==>
      k in KeysOf(images) && k in c.loading && k !in failing && SettleRun(c, images, failing).loaded[k] == c.loading[k].src
    ensures forall k :: k in KeysOf(images) ==> (k in SettleRun(c, images, failing).loaded <==> k in c.loaded || k !in failing)
  {
    if images != [] {
      SettleRunFrame(c, images[..|images| - 1], failing);
    }
  }

  /** A batch starts a load for exactly the keys that were neither cached nor in flight. */
  lemma {:induction false} NewLoadsKeys(images: seq<ImageRef>, cached: set<string>, loading: set<string>)
    ensures KeysOf(NewLoads(images, cached, loading)) == KeysOf(images) - cached - loading
  {
    if images != [] {
      var init := images[..|images| - 1];
      var last := images[|images| - 1];
      var before := NewLoads(init, cached, loading);
      assert KeysOf(before) == KeysOf(init) - cached - loading by {
        NewLoadsKeys(init, cached, loading);
      }
      assert KeysOf(images) == KeysOf(init) + {last.key};
      if last.key in cached || last.key in loading || last.key in KeysOf(init) {
        assert NewLoads(images, cached, loading) == before by {
          assert before + [] == before;
        }
      } else {
        assert NewLoads(images, cached, loading) == before + [last];
        assert KeysOf(before + [last]) == KeysOf(before) + {last.key} by {
          assert (before + [last])[..|before|] == before;
        }
      }
    }
  }

  /** A batch starts at most one load per key. */
  lemma {:induction false} NewLoadsOncePerKey(images: seq<ImageRef>, cached: set<string>, loading: set<string>)
    ensures forall i, j :: 0 <= i < j < |NewLoads(images, cached, loading)| ==>
      NewLoads(images, cached, loading)[i].key != NewLoads(images, cached, loading)[j].key
  {
    if images != [] {
      var init := images[..|images| - 1];
      var last := images[|images| - 1];
      var before := NewLoads(init, cached, loading);
      NewLoadsOncePerKey(init, cached, loading);
      if !(last.key in cached || last.key in loading || last.key in KeysOf(init)) {
        var after := before + [last];
        NewLoadsKeys(init, cached, loading);
        KeysOfHasEveryKey(before);
        forall i, j | 0 <= i < j < |after|
          ensures after[i].key != after[j].key
        {
          if j == |before| {
            assert after[i] == before[i];
          }
        }
      }
    }
  }

  /**
   * A failed load leaves no trace in either map, so asking for the same
   * key again starts a second load of it.
   */
  method FailedLoadIsRetried(p: ImagePreloader, src: string, key: string)
    requires p.Valid() && key !in p.loadedImages && key !in p.loadingPromises
    modifies p
    ensures p.Valid()
    ensures p.started == old(p.started) + [ImageRef(src, key), ImageRef(src, key)]
    ensures key in p.loadingPromises && key !in p.loadedImages
  {
    var first := p.PreloadImage(src, key);
    p.OnError(key);
    var second := p.PreloadImage(src, key);
    assert first != second;
  }
}
