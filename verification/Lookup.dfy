/**
 The publisher lookups. Each one searches in two steps that an index can serve,
 and gives what a full scan of the remote items gives.
 */
module Lookup {
  import opened Basics

  datatype HeldFeed = HeldFeed(url: Url, createdAt: int, releaseArtist: Option<string>, artistSource: Option<string>)

  datatype Observation = Observation(guid: Guid, observedAt: int)

  /** A row of `feed_remote_items_raw`. */
  datatype RemoteItem = RemoteItem(feed: Guid, medium: Option<string>, source: string, guid: Guid, url: Option<Url>)

  datatype Tables = Tables(feeds: map<Guid, HeldFeed>, observations: map<Url, Observation>, items: seq<RemoteItem>)

  /** The `UNIQUE` constraint of `feed_url`. */
  predicate UrlsUnique(t: Tables) {
    forall g, h :: g in t.feeds && h in t.feeds && t.feeds[g].url == t.feeds[h].url ==> g == h
  }

  datatype Resolution = ByGuid(feed: Guid) | ByUrl(feed: Guid, observedAt: int) | Unresolved

  /** A stored observation that names an indexed feed. */
  predicate Observed(t: Tables, url: Url) {
    url in t.observations && t.observations[url].guid in t.feeds
  }

  /** `r` is the resolution of a listed feed: GUID, then observation, then stored URL. */
  predicate Resolves(t: Tables, guid: Guid, url: Option<Url>, r: Resolution) {
    if guid in t.feeds then r == ByGuid(guid)
    else if url.Some? && Observed(t, url.value) then
      r == ByUrl(t.observations[url.value].guid, t.observations[url.value].observedAt)
    else if r.ByUrl? then
      url.Some? && r.feed in t.feeds && t.feeds[r.feed].url == url.value && r.observedAt == t.feeds[r.feed].createdAt
    else
      r == Unresolved && (url.Some? ==> forall g :: g in t.feeds ==> t.feeds[g].url != url.value)
  }

  lemma ResolutionIsUnique(t: Tables, guid: Guid, url: Option<Url>, r: Resolution, r': Resolution)
    requires UrlsUnique(t) && Resolves(t, guid, url, r) && Resolves(t, guid, url, r')
    ensures r == r'
  {
  }

  /** `resolve_listed_feed`. */
  method ResolveListedFeed(t: Tables, guid: Guid, url: Option<Url>) returns (r: Resolution)
    ensures Resolves(t, guid, url, r)
  {
    if guid in t.feeds {
      return ByGuid(guid);
    }
    if url.Some? {
      if url.value in t.observations {
        var observation := t.observations[url.value];
        if observation.guid in t.feeds {
          return ByUrl(observation.guid, observation.observedAt);
        }
      }
      if g :| g in t.feeds && t.feeds[g].url == url.value {
        return ByUrl(g, t.feeds[g].createdAt);
      }
    }
    r := Unresolved;
  }

  // ── the full scan ──────────────────────────────────────────────────────

  predicate IsPublisherLink(item: RemoteItem) {
    item.medium == Some("publisher") && item.source == "podcast_publisher"
  }

  /** The item resolves to the feed `target`. */
  ghost predicate LinksTo(t: Tables, item: RemoteItem, target: Guid) {
    exists r :: Resolves(t, item.guid, item.url, r) && !r.Unresolved? && r.feed == target
  }

  /** The item names `target`: it resolves to it, or declares it and resolves to nothing. */
  ghost predicate Names(t: Tables, item: RemoteItem, target: Guid) {
    || LinksTo(t, item, target)
    || (item.guid == target && Resolves(t, item.guid, item.url, Unresolved))
  }

  ghost predicate FeedNames(t: Tables, feed: Guid, target: Guid) {
    exists i :: 0 <= i < |t.items| && t.items[i].feed == feed && IsPublisherLink(t.items[i]) && Names(t, t.items[i], target)
  }

  ghost predicate FeedLinksTo(t: Tables, feed: Guid, target: Guid) {
    exists i :: 0 <= i < |t.items| && t.items[i].feed == feed && IsPublisherLink(t.items[i]) && LinksTo(t, t.items[i], target)
  }

  /** The album and its artist that the derived artist count reads. */
  ghost predicate IsAlbum(t: Tables, album: (Guid, string), target: Guid) {
    && FeedLinksTo(t, album.0, target)
    && album.0 in t.feeds
    && t.feeds[album.0].artistSource == Some("itunes_author")
    && t.feeds[album.0].releaseArtist == Some(album.1)
  }

  // ── the two steps ──────────────────────────────────────────────────────

  /** The URLs under which an item can resolve to `target`. */
  function UrlsOf(t: Tables, target: Guid): set<Url> {
    (set u | u in t.observations && t.observations[u].guid == target) +
    (if target in t.feeds then {t.feeds[target].url} else {})
  }

  /** An item that links to `target` declares its GUID or one of its URLs. */
  lemma LinkIsFound(t: Tables, item: RemoteItem, target: Guid)
    requires LinksTo(t, item, target)
    ensures target in t.feeds
    ensures item.guid == target || (item.url.Some? && item.url.value in UrlsOf(t, target))
  {
  }

  /** The method and the scan resolve an item alike. */
  lemma LinkByResolution(t: Tables, item: RemoteItem, target: Guid, r: Resolution)
    requires UrlsUnique(t) && Resolves(t, item.guid, item.url, r)
    ensures LinksTo(t, item, target) <==> !r.Unresolved? && r.feed == target
    ensures Names(t, item, target) <==> if r.Unresolved? then item.guid == target else r.feed == target
  {
    forall r' | Resolves(t, item.guid, item.url, r')
      ensures r' == r
    {
      ResolutionIsUnique(t, item.guid, item.url, r, r');
    }
  }

  ghost predicate FoundByUrl(t: Tables, f: Guid, urls: set<Url>, target: Guid) {
    exists i :: 0 <= i < |t.items| && t.items[i].feed == f && IsPublisherLink(t.items[i]) &&
      t.items[i].url.Some? && t.items[i].url.value in urls && LinksTo(t, t.items[i], target)
  }

  ghost predicate NamedByGuid(t: Tables, f: Guid, target: Guid) {
    exists i :: 0 <= i < |t.items| && t.items[i].feed == f && IsPublisherLink(t.items[i]) &&
      t.items[i].guid == target && Names(t, t.items[i], target)
  }

  ghost predicate LinkedByGuid(t: Tables, f: Guid, target: Guid) {
    exists i :: 0 <= i < |t.items| && t.items[i].feed == f && IsPublisherLink(t.items[i]) &&
      t.items[i].guid == target && LinksTo(t, t.items[i], target)
  }

  /** The rows of the query for one URL, each confirmed. */
  method UrlStep(t: Tables, url: Url, target: Guid) returns (found: set<Guid>)
    requires UrlsUnique(t)
    ensures forall f :: f in found <==>
              exists i :: 0 <= i < |t.items| && t.items[i].feed == f && IsPublisherLink(t.items[i]) &&
                t.items[i].url == Some(url) && LinksTo(t, t.items[i], target)
  {
    found := {};
    for n := 0 to |t.items|
      invariant forall f :: f in found <==>
                  exists i :: 0 <= i < n && t.items[i].feed == f && IsPublisherLink(t.items[i]) &&
                    t.items[i].url == Some(url) && LinksTo(t, t.items[i], target)
    {
      var item := t.items[n];
      if item.medium == Some("publisher") && item.source == "podcast_publisher" && item.url == Some(url) {
        var r := ResolveListedFeed(t, item.guid, item.url);
        LinkByResolution(t, item, target, r);
        if !r.Unresolved? && r.feed == target {
          found := found + {item.feed};
        }
      }
    }
  }

  /** The URL step over each URL of a set. */
  method UrlSteps(t: Tables, urls: set<Url>, target: Guid) returns (found: set<Guid>)
    requires UrlsUnique(t)
    ensures forall f :: f in found <==> FoundByUrl(t, f, urls, target)
  {
    found := {};
    var pending := urls;
    while pending != {}
      invariant pending <= urls
      invariant forall f :: f in found <==> FoundByUrl(t, f, urls - pending, target)
      decreases pending
    {
      var url :| url in pending;
      var more := UrlStep(t, url, target);
      pending := pending - {url};
      found := found + more;
    }
  }

  /** `get_feeds_naming_feed`. */
  method GetFeedsNamingFeed(t: Tables, target: Guid) returns (matched: set<Guid>)
    requires UrlsUnique(t)
    ensures forall f :: f in matched <==> FeedNames(t, f, target)
  {
    matched := {};
    for n := 0 to |t.items|
      invariant forall f :: f in matched <==>
                  exists i :: 0 <= i < n && t.items[i].feed == f && IsPublisherLink(t.items[i]) &&
                    t.items[i].guid == target && Names(t, t.items[i], target)
    {
      var item := t.items[n];
      if item.medium == Some("publisher") && item.source == "podcast_publisher" && item.guid == target {
        var r := ResolveListedFeed(t, item.guid, item.url);
        LinkByResolution(t, item, target, r);
        if r.Unresolved? || r.feed == target {
          matched := matched + {item.feed};
        }
      }
    }
    if target in t.feeds {
      var urls := set u | u in t.observations && t.observations[u].guid == target;
      urls := urls + {t.feeds[target].url};
      var more := UrlSteps(t, urls, target);
      matched := matched + more;
    }
    forall f
      ensures f in matched <==> FeedNames(t, f, target)
    {
      TwoStepsSuffice(t, f, target);
    }
  }

  /** A feed names the target by a declared GUID, or by a URL of a held target. */
  lemma TwoStepsSuffice(t: Tables, f: Guid, target: Guid)
    ensures FeedNames(t, f, target) <==>
              NamedByGuid(t, f, target) || (target in t.feeds && FoundByUrl(t, f, UrlsOf(t, target), target))
  {
    forall i | 0 <= i < |t.items| && LinksTo(t, t.items[i], target)
      ensures target in t.feeds
      ensures t.items[i].guid == target || (t.items[i].url.Some? && t.items[i].url.value in UrlsOf(t, target))
    {
      LinkIsFound(t, t.items[i], target);
    }
  }

  /** `get_publisher_album_release_artists`. */
  method GetPublisherAlbumArtists(t: Tables, publisher: Guid) returns (albums: set<(Guid, string)>)
    requires UrlsUnique(t)
    ensures forall a :: a in albums <==> IsAlbum(t, a, publisher)
  {
    var candidates: set<Guid> := {};
    for n := 0 to |t.items|
      invariant forall f :: f in candidates <==>
                  exists i :: 0 <= i < n && t.items[i].feed == f && IsPublisherLink(t.items[i]) &&
                    t.items[i].guid == publisher && LinksTo(t, t.items[i], publisher)
    {
      var item := t.items[n];
      if item.medium == Some("publisher") && item.source == "podcast_publisher" && item.guid == publisher {
        var r := ResolveListedFeed(t, item.guid, item.url);
        LinkByResolution(t, item, publisher, r);
        if !r.Unresolved? && r.feed == publisher {
          candidates := candidates + {item.feed};
        }
      }
    }
    var urls := set u | u in t.observations && t.observations[u].guid == publisher;
    if publisher in t.feeds {
      urls := urls + {t.feeds[publisher].url};
    }
    var more := UrlSteps(t, urls, publisher);
    candidates := candidates + more;
    forall f
      ensures f in candidates <==> FeedLinksTo(t, f, publisher)
    {
      TwoStepsLink(t, f, publisher);
    }
    albums := {};
    var pending := candidates;
    while pending != {}
      invariant pending <= candidates
      invariant forall a :: a in albums <==> a.0 in candidates - pending && IsAlbum(t, a, publisher)
      decreases pending
    {
      var g :| g in pending;
      pending := pending - {g};
      if g in t.feeds && t.feeds[g].artistSource == Some("itunes_author") && t.feeds[g].releaseArtist.Some? {
        albums := albums + {(g, t.feeds[g].releaseArtist.value)};
      }
    }
  }

  lemma TwoStepsLink(t: Tables, f: Guid, target: Guid)
    ensures FeedLinksTo(t, f, target) <==> LinkedByGuid(t, f, target) || FoundByUrl(t, f, UrlsOf(t, target), target)
  {
    forall i | 0 <= i < |t.items| && LinksTo(t, t.items[i], target)
      ensures t.items[i].guid == target || (t.items[i].url.Some? && t.items[i].url.value in UrlsOf(t, target))
    {
      LinkIsFound(t, t.items[i], target);
    }
  }
}
