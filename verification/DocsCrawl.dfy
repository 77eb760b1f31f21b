/** The documentation builder's discovery phase: a worklist crawl over the links
    of the Markdown files, starting from index.md. */
module DocsCrawl {
  type Path = string

  /** A path that os.Stat finds; only readable ones yield links and assets. */
  datatype Doc = Doc(readable: bool, links: seq<string>, assets: seq<string>)

  /** The source tree, and how a link found in a file resolves to a path. */
  datatype Site = Site(docs: map<Path, Doc>, resolve: (Path, string) -> Path)

  const INDEX: Path := "index.md"

  predicate Readable(site: Site, p: Path) {
    p in site.docs && site.docs[p].readable
  }

  predicate LinksTo(site: Site, from: Path, to: Path) {
    && Readable(site, from)
    && to in site.docs
    && exists link <- site.docs[from].links :: site.resolve(from, link) == to
  }

  predicate IsChain(site: Site, chain: seq<Path>) {
    && chain != []
    && chain[0] == INDEX
    && forall i :: 0 <= i < |chain| - 1 ==> LinksTo(site, chain[i], chain[i + 1])
  }

  ghost predicate Reachable(site: Site, p: Path) {
    exists chain :: IsChain(site, chain) && chain[|chain| - 1] == p
  }

  ghost predicate Closed(site: Site, s: set<Path>) {
    INDEX in s && forall p, q :: p in s && LinksTo(site, p, q) ==> q in s
  }

  lemma ReachableStep(site: Site, p: Path, q: Path)
    requires Reachable(site, p) && LinksTo(site, p, q)
    ensures Reachable(site, q)
  {
    var chain :| IsChain(site, chain) && chain[|chain| - 1] == p;
    var longer := chain + [q];
    assert forall i :: 0 <= i < |longer| - 1 ==> LinksTo(site, longer[i], longer[i + 1]);
    assert IsChain(site, longer) && longer[|longer| - 1] == q;
  }

  lemma {:induction false} ChainStaysIn(site: Site, s: set<Path>, chain: seq<Path>)
    requires Closed(site, s) && IsChain(site, chain)
    ensures chain[|chain| - 1] in s
  {
    if |chain| > 1 {
      var front := chain[..|chain| - 1];
      assert IsChain(site, front);
      ChainStaysIn(site, s, front);
      assert LinksTo(site, chain[|chain| - 2], chain[|chain| - 1]);
    }
  }

  /** What is reachable is in every closed set, and the crawl's result is one. */
  lemma ReachableIsLeast(site: Site, s: set<Path>)
    requires Closed(site, s)
    ensures forall p :: Reachable(site, p) ==> p in s
  {
    forall p | Reachable(site, p) ensures p in s {
      var chain :| IsChain(site, chain) && chain[|chain| - 1] == p;
      ChainStaysIn(site, s, chain);
    }
  }

  /** The page names this asset. */
  predicate Names(site: Site, p: Path, asset: Path) {
    Readable(site, p) && exists a <- site.docs[p].assets :: site.resolve(p, a) == asset
  }

  predicate NoRepeats(s: seq<Path>) {
    forall i, j :: 0 <= i < j < |s| ==> s[i] != s[j]
  }

  lemma {:induction false} NoRepeatsFits(s: seq<Path>, universe: set<Path>)
    requires NoRepeats(s) && forall p <- s :: p in universe
    ensures |s| <= |universe|
  {
    if s != [] {
      var front, last := s[..|s| - 1], s[|s| - 1];
      forall p <- front ensures p in universe - {last} {
      }
      NoRepeatsFits(front, universe - {last});
    }
  }

  /** The paths queued so far, each once, are the discovered ones. */
  ghost predicate Discovered(site: Site, queued: seq<Path>, discovered: set<Path>) {
    && NoRepeats(queued) && discovered == (set p <- queued)
    && forall p <- queued :: (p in site.docs || p == INDEX) && Reachable(site, p)
  }

  lemma DiscoveredFits(site: Site, queued: seq<Path>, discovered: set<Path>)
    requires Discovered(site, queued, discovered)
    ensures |queued| <= |site.docs.Keys + {INDEX}|
  {
    NoRepeatsFits(queued, site.docs.Keys + {INDEX});
  }

  ghost predicate Followed(site: Site, done: seq<Path>, discovered: set<Path>) {
    forall p, q :: p in done && LinksTo(site, p, q) ==> q in discovered
  }

  ghost predicate Collected(site: Site, done: seq<Path>, assets: set<Path>) {
    forall a :: a in assets <==> exists p <- done :: Names(site, p, a)
  }

  lemma CollectMore(site: Site, done: seq<Path>, assets: set<Path>, p: Path, found: set<Path>)
    requires Collected(site, done, assets)
    requires forall a :: a in found <==> Names(site, p, a)
    ensures Collected(site, done + [p], assets + found)
  {
  }

  /** The first `taken` queued pages have been read; the rest are on the queue. */
  ghost predicate Crawling(
      site: Site, queued: seq<Path>, taken: nat, discovered: set<Path>, assets: set<Path>) {
    && taken <= |queued|
    && INDEX in discovered && Discovered(site, queued, discovered)
    && Followed(site, queued[..taken], discovered)
    && Collected(site, queued[..taken], assets)
  }

  lemma CrawlIsDone(site: Site, queued: seq<Path>, discovered: set<Path>, assets: set<Path>)
    requires Crawling(site, queued, |queued|, discovered, assets)
    ensures Closed(site, discovered)
    ensures forall p :: p in discovered <==> Reachable(site, p)
    ensures forall a :: a in assets <==> exists p <- discovered :: Names(site, p, a)
  {
    assert queued[..|queued|] == queued;
    assert Closed(site, discovered);
    ReachableIsLeast(site, discovered);
    forall a ensures a in assets <==> exists p <- discovered :: Names(site, p, a) {
      assert (exists p <- queued :: Names(site, p, a)) <==> exists p <- discovered :: Names(site, p, a);
    }
  }

  // Queues the existing pages that `current` links to and nobody queued before.
  method FollowLinks(
      site: Site, current: Path, discovered: set<Path>, queue: seq<Path>, ghost queued: seq<Path>, ghost taken: nat)
    returns (discovered': set<Path>, queue': seq<Path>, ghost queued': seq<Path>)
    requires Readable(site, current) && Reachable(site, current)
    requires taken <= |queued| && queue == queued[taken..]
    requires Discovered(site, queued, discovered)
    ensures queued <= queued' && queue' == queued'[taken..]
    ensures Discovered(site, queued', discovered')
    ensures forall q :: LinksTo(site, current, q) ==> q in discovered'
  {
    discovered', queue', queued' := discovered, queue, queued;
    var links := site.docs[current].links;
    for i := 0 to |links|
      invariant queued <= queued' && queue' == queued'[taken..]
      invariant Discovered(site, queued', discovered')
      invariant forall j :: 0 <= j < i ==>
                  site.resolve(current, links[j]) in site.docs ==> site.resolve(current, links[j]) in discovered'
    {
      var resolved := site.resolve(current, links[i]);
      if resolved !in discovered' && resolved in site.docs {
        assert LinksTo(site, current, resolved);
        ReachableStep(site, current, resolved);
        discovered' := discovered' + {resolved};
        queue' := queue' + [resolved];
        queued' := queued' + [resolved];
      }
    }
  }

  // Reads one page off the queue.
  method Visit(
      site: Site, queue: seq<Path>, discovered: set<Path>, assets: set<Path>, ghost queued: seq<Path>, ghost taken: nat)
    returns (queue': seq<Path>, discovered': set<Path>, assets': set<Path>, ghost queued': seq<Path>)
    requires taken <= |queued| && queue != [] && queue == queued[taken..]
    requires Crawling(site, queued, taken, discovered, assets)
    ensures taken < |queued'| && queue' == queued'[taken + 1..]
    ensures Crawling(site, queued', taken + 1, discovered', assets')
  {
    var current := queue[0];
    queue', discovered', assets', queued' := queue[1..], discovered, assets, queued;
    ghost var done := queued[..taken];
    assert queued[..taken + 1] == done + [current] && current in queued;
    if Readable(site, current) {
      discovered', queue', queued' := FollowLinks(site, current, discovered, queue', queued, taken + 1);
      assert queued'[..taken + 1] == done + [current];
      var found := set a <- site.docs[current].assets :: site.resolve(current, a);
      CollectMore(site, done, assets, current, found);
      assets' := assets + found;
    } else {
      CollectMore(site, done, assets, current, {});
      assert assets + {} == assets;
    }
  }

  /** The crawl finds exactly the pages that a chain of links reaches, puts each
      on the queue once, and collects exactly their assets. */
  method Crawl(site: Site) returns (discovered: set<Path>, assets: set<Path>, ghost queued: seq<Path>)
    ensures forall p :: p in discovered <==> Reachable(site, p)
    ensures "index.md" in discovered && Closed(site, discovered)
    ensures NoRepeats(queued) && discovered == set p <- queued
    ensures forall a :: a in assets <==> exists p <- discovered :: Names(site, p, a)
  {
    var queue := [INDEX];
    discovered, assets, queued := {INDEX}, {}, [INDEX];
    ghost var taken := 0;
    assert IsChain(site, [INDEX]);
    while queue != []
      invariant taken <= |queued| && queue == queued[taken..]
      invariant Crawling(site, queued, taken, discovered, assets)
      decreases |site.docs.Keys + {INDEX}| - taken
    {
      queue, discovered, assets, queued := Visit(site, queue, discovered, assets, queued, taken);
      taken := taken + 1;
      DiscoveredFits(site, queued, discovered);
    }
    CrawlIsDone(site, queued, discovered, assets);
  }
}
