/*
 * The one-off migration of the file-based site to the image host and the
 * database (scripts/migrate-to-cloud.js): local images are uploaded once
 * per full path through a cache, hero and gallery images keep their ids
 * and order, each gallery gets a cover and schema defaults, galleries are
 * migrated in ascending `order`, and a summary decides overall success.
 *
 * The file system and the image host are a `Host` value: whether a file
 * exists, the unique suffix the clock and random source give the n-th
 * upload, and what the n-th upload returns (`None` when it throws).
 */
module Migration {
  import opened Base
  import opened Text
  import G = GalleryModel
  import S = SiteContentModel

  /** What an upload yields: the secure URL and the host's public id. */
  datatype Uploaded = Uploaded(url: string, publicId: string)

  /** One call made to the host: the full file path, the target folder and the requested public id. */
  datatype Attempt = Attempt(fullPath: string, folder: string, publicId: string)

  datatype Host = Host(
    fileExists: string -> bool,
    suffix: nat -> string,
    upload: (Attempt, nat) -> Option<Uploaded>)

  /** Succeeded and failed counts of one part of the run. */
  datatype Tally = Tally(succeeded: nat, failed: nat)

  /** The `results` record the run fills in. */
  datatype Results = Results(
    logo: Tally, hero: Tally, about: Tally, galleries: Tally, galleryImages: Tally, contentSuccess: bool)

  const NoResults := Results(Tally(0, 0), Tally(0, 0), Tally(0, 0), Tally(0, 0), Tally(0, 0), false)

  /** Two result records agree on everything the content part of the run counts. */
  predicate SameContentTallies(a: Results, b: Results) {
    a.logo == b.logo && a.hero == b.hero && a.about == b.about && a.contentSuccess == b.contentSuccess
  }

  /** The run succeeded when the content was saved and no gallery, logo or hero image failed. */
  predicate AllSuccess(r: Results) {
    r.contentSuccess && r.galleries.failed == 0 && r.logo.failed == 0 && r.hero.failed == 0
  }

  /** Failed about-image and gallery-image uploads do not make the run fail. */
  lemma AllSuccessIgnoresImages(r: Results, about: Tally, galleryImages: Tally)
    ensures AllSuccess(r.(about := about, galleryImages := galleryImages)) == AllSuccess(r)
    ensures AllSuccess(r) ==> r.contentSuccess && r.galleries.failed == 0 && r.logo.failed == 0 && r.hero.failed == 0
    ensures r.contentSuccess && r.galleries.failed == 0 && r.logo.failed == 0 && r.hero.failed == 0 ==> AllSuccess(r)
  {
  }

  // ---------------------------------------------------------------------
  // Public ids

  /** The characters a generated public id keeps: ASCII letters, digits, `-` and `_`. */
  predicate IdChar(c: char) {
    'a' <= c <= 'z' || 'A' <= c <= 'Z' || '0' <= c <= '9' || c == '-' || c == '_'
  }

  /** `replace(/[^a-zA-Z0-9-_]/g, '_')`. */
  function Sanitize(s: string): (r: string)
    ensures |r| == |s|
    ensures forall i :: 0 <= i < |s| ==> r[i] == (if IdChar(s[i]) then s[i] else '_')
  {
    if |s| == 0 then "" else [if IdChar(s[0]) then s[0] else '_'] + Sanitize(s[1..])
  }

  /** A sanitised id holds only allowed characters, and sanitising it again changes nothing. */
  lemma SanitizeOnlyIdChars(s: string)
    ensures forall i :: 0 <= i < |Sanitize(s)| ==> IdChar(Sanitize(s)[i])
    ensures Sanitize(Sanitize(s)) == Sanitize(s)
    ensures (forall i :: 0 <= i < |s| ==> IdChar(s[i])) ==> Sanitize(s) == s
  {
  }

  /** `path.basename(p)`: the text after the last `/`. */
  function BaseName(p: string): (r: string)
    ensures '/' !in r
    ensures |r| <= |p| && r == p[|p| - |r|..]
  {
    p[LastIndexOf(p, '/') + 1..]
  }

  /** `path.basename(p, path.extname(p))`: the base name without its extension, a leading dot not counting as one. */
  function Stem(p: string): (r: string)
    ensures '/' !in r
    ensures StartsWith(BaseName(p), r)
    ensures r == BaseName(p) || BaseName(p)[|r|] == '.'
  {
    var b := BaseName(p);
    var d := LastIndexOf(b, '.');
    if d > 0 then b[..d] else b
  }

  /** The public id requested for a local file: its stem, a dash and the unique suffix, sanitised. */
  function RequestedId(localPath: string, suffix: string): (r: string)
    ensures |r| == |Stem(localPath)| + 1 + |suffix|
    ensures forall i :: 0 <= i < |r| ==> IdChar(r[i])
  {
    SanitizeOnlyIdChars(Stem(localPath) + "-" + suffix);
    Sanitize(Stem(localPath) + "-" + suffix)
  }

  /** The directory the local paths are resolved against. */
  const Root: string := "/site"

  /** `path.join(ROOT_DIR, localPath)`. */
  function FullPath(localPath: string): string {
    Root + "/" + localPath
  }

  // ---------------------------------------------------------------------
  // Cover selection

  datatype SourceImage = SourceImage(id: string, filename: Option<string>, path: string)

  /**
   * A migrated image matches the cover when the first source image with
   * its id has the cover's path, backslashes read as slashes.
   */
  predicate MatchesCover(cover: string, sources: seq<SourceImage>, img: G.GalleryImage) {
    var k := FindIndex(sources, (s: SourceImage) => s.id == img.id);
    k >= 0 && NormalizeSlashes(cover) == NormalizeSlashes(sources[k].path)
  }

  /**
   * The cover of a migrated gallery: with a cover path, the first migrated
   * image matching it, else the first migrated image; without one, the
   * first migrated image; `None` when nothing was migrated.
   */
  function SelectCover(cover: Option<string>, sources: seq<SourceImage>, migrated: seq<G.GalleryImage>): (r: Option<G.GalleryImage>)
    ensures r.None? <==> |migrated| == 0
    ensures r.Some? ==> r.value in migrated
    ensures Truthy(cover) && (exists j :: 0 <= j < |migrated| && MatchesCover(cover.value, sources, migrated[j])) ==>
      r.Some? && MatchesCover(cover.value, sources, r.value) &&
      exists j :: 0 <= j < |migrated| && r.value == migrated[j] && forall l :: 0 <= l < j ==> !MatchesCover(cover.value, sources, migrated[l])
    ensures |migrated| > 0 && (!Truthy(cover) || forall j :: 0 <= j < |migrated| ==> !MatchesCover(cover.value, sources, migrated[j])) ==>
      r == Some(migrated[0])
  {
    if Truthy(cover) then
      var m := FindIndex(migrated, (img: G.GalleryImage) => MatchesCover(cover.value, sources, img));
      if m >= 0 then Some(migrated[m])
      else if |migrated| > 0 then Some(migrated[0])
      else None
    else if |migrated| > 0 then Some(migrated[0])
    else None
  }

  // ---------------------------------------------------------------------
  // Gallery documents

  /** A gallery as read from the old JSON file; absent fields are `None`. */
  datatype SourceGallery = SourceGallery(
    id: string, name: string, category: Option<string>, description: Option<string>, folder: Option<string>,
    isActive: Option<bool>, isFeatured: Option<bool>, order: Option<int>, coverImage: Option<string>,
    images: Option<seq<SourceImage>>, createdAt: Option<int>)

  /** `gallery.order || index`: a missing or zero order becomes the gallery's position. */
  function MigratedOrder(order: Option<int>, index: nat): int {
    if order.None? || order.value == 0 then index else order.value
  }

  /** The request-like fields the migration hands to the schema. */
  function MigratedFields(g: SourceGallery, index: nat, cover: Option<G.GalleryImage>): G.GalleryFields {
    G.GalleryFields(
      Some(g.id), Some(g.name), g.category, g.description, g.folder, g.isActive, g.isFeatured,
      Some(MigratedOrder(g.order, index)),
      if cover.Some? then Some(cover.value.path) else None,
      if cover.Some? then cover.value.publicId else None)
  }

  /** The document created for a migrated gallery from its migrated images. */
  function MigratedDoc(g: SourceGallery, index: nat, images: seq<G.GalleryImage>, docId: string, now: int): G.Gallery {
    var cover := SelectCover(g.coverImage, g.images.GetOr([]), images);
    G.NewGallery(docId, MigratedFields(g, index, cover), images, now).(createdAt := g.createdAt.GetOr(now))
  }

  /**
   * The migrated document keeps the id and name, defaults `isActive` to
   * true and `isFeatured` to false as the schema does, and differs from
   * the schema's `order` default exactly when the order is missing or zero
   * and the gallery is not the first.
   */
  lemma MigratedFollowsSchema(g: SourceGallery, index: nat, images: seq<G.GalleryImage>, docId: string, now: int)
    ensures var d := MigratedDoc(g, index, images, docId, now);
            var schema := G.NewGallery(docId, G.GalleryFields(Some(g.id), Some(g.name), g.category, g.description,
                                         g.folder, g.isActive, g.isFeatured, g.order, None, None), images, now);
            d.id == g.id && d.name == g.name && d.images == images &&
            d.isActive == (g.isActive != Some(false)) && d.isFeatured == (g.isFeatured == Some(true)) &&
            d.isActive == schema.isActive && d.isFeatured == schema.isFeatured &&
            d.category == schema.category && d.description == schema.description &&
            (d.order != schema.order <==> (g.order.None? || g.order == Some(0)) && index != 0) &&
            d.createdAt == g.createdAt.GetOr(now) &&
            (d.coverImage.Some? <==> |images| > 0)
  {
  }

  /** The keys a migrated document carries over from its source gallery and position. */
  lemma MigratedDocKeys(g: SourceGallery, index: nat, images: seq<G.GalleryImage>, docId: string, now: int)
    ensures var d := MigratedDoc(g, index, images, docId, now);
            d.id == g.id && d.name == g.name && d.order == MigratedOrder(g.order, index) && d.docId == docId
  {
  }

  // ---------------------------------------------------------------------
  // Gallery order

  /** `(g.order || 0)`, the key the galleries are sorted on. */
  function OrderKey(g: SourceGallery): int {
    g.order.GetOr(0)
  }

  predicate SortedByOrder(s: seq<SourceGallery>) {
    forall i, j :: 0 <= i < j < |s| ==> OrderKey(s[i]) <= OrderKey(s[j])
  }

  /** Inserts `x` after every element whose key is not larger than its own. */
  function InsertByOrder(x: SourceGallery, s: seq<SourceGallery>): (r: seq<SourceGallery>)
    requires SortedByOrder(s)
    ensures SortedByOrder(r)
    ensures multiset(r) == multiset(s) + multiset{x}
    ensures |r| == |s| + 1
    decreases |s|, 0
  {
    if |s| == 0 then [x]
    else if OrderKey(s[|s| - 1]) <= OrderKey(x) then s + [x]
    else
      var front := s[..|s| - 1];
      var last := s[|s| - 1];
      var ins := InsertByOrder(x, front);
      assert s == front + [last];
      assert forall k :: 0 <= k < |front| ==> OrderKey(front[k]) <= OrderKey(last) by {
        forall k | 0 <= k < |front| ensures OrderKey(front[k]) <= OrderKey(last) {
          assert front[k] == s[k];
        }
      }
      InsertBelowLast(x, front, last);
      SortedSnoc(ins, last);
      ins + [last]
  }

  /** Appending a gallery whose key is at least every key keeps the list sorted. */
  lemma SortedSnoc(s: seq<SourceGallery>, last: SourceGallery)
    requires SortedByOrder(s) && forall y :: y in s ==> OrderKey(y) <= OrderKey(last)
    ensures SortedByOrder(s + [last])
  {
    var r := s + [last];
    forall i, j | 0 <= i < j < |r| ensures OrderKey(r[i]) <= OrderKey(r[j]) {
      assert r[i] == s[i];
      if j < |s| {
        assert r[j] == s[j];
      }
    }
  }

  /** Inserting below a larger last key keeps every key at most that key. */
  lemma InsertBelowLast(x: SourceGallery, front: seq<SourceGallery>, last: SourceGallery)
    requires SortedByOrder(front) && OrderKey(x) < OrderKey(last)
    requires forall k :: 0 <= k < |front| ==> OrderKey(front[k]) <= OrderKey(last)
    ensures forall y :: y in InsertByOrder(x, front) ==> OrderKey(y) <= OrderKey(last)
    decreases |front|, 1
  {
    forall y | y in InsertByOrder(x, front) ensures OrderKey(y) <= OrderKey(last) {
      assert y in multiset(InsertByOrder(x, front));
      if y != x {
        assert y in multiset(front);
        var k :| 0 <= k < |front| && front[k] == y;
      }
    }
  }

  /** `[...galleries].sort((a, b) => (a.order || 0) - (b.order || 0))`, a stable sort. */
  function SortByOrder(s: seq<SourceGallery>): (r: seq<SourceGallery>)
    ensures SortedByOrder(r)
    ensures multiset(r) == multiset(s)
    ensures |r| == |s|
  {
    if |s| == 0 then []
    else
      assert s == s[..|s| - 1] + [s[|s| - 1]];
      InsertByOrder(s[|s| - 1], SortByOrder(s[..|s| - 1]))
  }

  /** The galleries of `s` whose sort key is `k`, in their order in `s`. */
  function Ties(s: seq<SourceGallery>, k: int): (r: seq<SourceGallery>)
    ensures |r| <= |s|
  {
    if |s| == 0 then []
    else Ties(s[..|s| - 1], k) + (if OrderKey(s[|s| - 1]) == k then [s[|s| - 1]] else [])
  }

  lemma TiesSnoc(s: seq<SourceGallery>, y: SourceGallery, k: int)
    ensures Ties(s + [y], k) == Ties(s, k) + (if OrderKey(y) == k then [y] else [])
  {
    assert (s + [y])[..|s|] == s;
  }

  lemma {:induction false} InsertKeepsTies(x: SourceGallery, s: seq<SourceGallery>, k: int)
    requires SortedByOrder(s)
    ensures Ties(InsertByOrder(x, s), k) == Ties(s, k) + (if OrderKey(x) == k then [x] else [])
    decreases |s|
  {
    if |s| == 0 {
      TiesSnoc([], x, k);
      assert [] + [x] == [x];
    } else if OrderKey(s[|s| - 1]) <= OrderKey(x) {
      TiesSnoc(s, x, k);
    } else {
      var front := s[..|s| - 1];
      var last := s[|s| - 1];
      assert s == front + [last];
      InsertBelow(x, s);
      var ins := InsertByOrder(x, front);
      InsertKeepsTies(x, front, k);
      TiesSnoc(ins, last, k);
      TiesSnoc(front, last, k);
      TiesCommute(Ties(front, k), x, last, k);
    }
  }

  /** Below a larger last key, insertion goes into the front and the last element stays last. */
  lemma InsertBelow(x: SourceGallery, s: seq<SourceGallery>)
    requires SortedByOrder(s) && |s| > 0 && OrderKey(x) < OrderKey(s[|s| - 1])
    ensures SortedByOrder(s[..|s| - 1])
    ensures InsertByOrder(x, s) == InsertByOrder(x, s[..|s| - 1]) + [s[|s| - 1]]
  {
  }

  /** Two galleries with different keys cannot both be ties of `k`, so their order among the ties does not matter. */
  lemma TiesCommute(t: seq<SourceGallery>, x: SourceGallery, y: SourceGallery, k: int)
    requires OrderKey(x) < OrderKey(y)
    ensures t + (if OrderKey(x) == k then [x] else []) + (if OrderKey(y) == k then [y] else [])
         == t + (if OrderKey(y) == k then [y] else []) + (if OrderKey(x) == k then [x] else [])
  {
  }

  /**
   * The sort is stable: galleries with equal order keep their relative
   * order from the file.
   */
  lemma {:induction false} SortKeepsTies(s: seq<SourceGallery>, k: int)
    ensures Ties(SortByOrder(s), k) == Ties(s, k)
  {
    if |s| > 0 {
      var front := s[..|s| - 1];
      var last := s[|s| - 1];
      var sortedFront := SortByOrder(front);
      assert SortByOrder(s) == InsertByOrder(last, sortedFront);
      calc {
        Ties(SortByOrder(s), k);
        { InsertKeepsTies(last, sortedFront, k); }
        Ties(sortedFront, k) + (if OrderKey(last) == k then [last] else []);
        { SortKeepsTies(front, k); }
        Ties(front, k) + (if OrderKey(last) == k then [last] else []);
        Ties(s, k);
      }
    }
  }

  // ---------------------------------------------------------------------
  // The run

  /** A hero image as the old content file lists it. */
  datatype SourceHeroImage = SourceHeroImage(id: string, path: string)

  /**
   * The `j`-th stored document came from the gallery at position
   * `stored[j]` of the sorted list: same id and name, its order defaulted
   * from that position, and the database id given for it.
   */
  predicate StoredFrom(docs: seq<G.Gallery>, stored: seq<nat>, sorted: seq<SourceGallery>, docIds: nat -> string) {
    |docs| == |stored| &&
    forall j :: 0 <= j < |stored| ==>
      stored[j] < |sorted| &&
      docs[j].id == sorted[stored[j]].id && docs[j].name == sorted[stored[j]].name &&
      docs[j].order == MigratedOrder(sorted[stored[j]].order, stored[j]) && docs[j].docId == docIds(stored[j])
  }

  lemma StoredFromSnoc(docs: seq<G.Gallery>, stored: seq<nat>, sorted: seq<SourceGallery>, docIds: nat -> string, doc: G.Gallery, i: nat)
    requires StoredFrom(docs, stored, sorted, docIds) && i < |sorted|
    requires doc.id == sorted[i].id && doc.name == sorted[i].name
    requires doc.order == MigratedOrder(sorted[i].order, i) && doc.docId == docIds(i)
    ensures StoredFrom(docs + [doc], stored + [i], sorted, docIds)
  {
    var docs', stored' := docs + [doc], stored + [i];
    forall j | 0 <= j < |stored'|
      ensures stored'[j] < |sorted| && docs'[j].id == sorted[stored'[j]].id && docs'[j].name == sorted[stored'[j]].name &&
              docs'[j].order == MigratedOrder(sorted[stored'[j]].order, stored'[j]) && docs'[j].docId == docIds(stored'[j])
    {
      if j < |stored| {
        assert docs'[j] == docs[j] && stored'[j] == stored[j];
      }
    }
  }

  /** Positions in strictly increasing order, all below `n`. */
  predicate Ascending(kept: seq<nat>, n: nat) {
    (forall j :: 0 <= j < |kept| ==> kept[j] < n) &&
    (forall i, j :: 0 <= i < j < |kept| ==> kept[i] < kept[j])
  }

  /** Keeping or skipping position `n` leaves the kept positions ascending below `n + 1`. */
  lemma AscendingStep(kept: seq<nat>, n: nat, keep: bool)
    requires Ascending(kept, n)
    ensures Ascending(if keep then kept + [n] else kept, n + 1)
  {
  }

  /** The kept positions are exactly the successful outcomes, in ascending order. */
  ghost predicate KeptExactly(kept: seq<nat>, outcomes: seq<Option<Uploaded>>) {
    Ascending(kept, |outcomes|) &&
    (forall i :: 0 <= i < |outcomes| ==> (outcomes[i].Some? <==> i in kept)) &&
    (forall j :: 0 <= j < |kept| ==> outcomes[kept[j]].Some?)
  }

  /** Recording a failure keeps the kept positions exactly the successes. */
  lemma KeptFailure(kept: seq<nat>, outcomes: seq<Option<Uploaded>>)
    requires forall j :: 0 <= j < |kept| ==> kept[j] < |outcomes|
    requires forall i :: 0 <= i < |outcomes| ==> (outcomes[i].Some? <==> i in kept)
    ensures forall i :: 0 <= i < |outcomes| + 1 ==> ((outcomes + [None])[i].Some? <==> i in kept)
  {
    var n := |outcomes|;
    assert n !in kept;
    forall i | 0 <= i < n + 1
      ensures (outcomes + [None])[i].Some? <==> i in kept
    {
      if i < n {
        assert (outcomes + [None])[i] == outcomes[i];
      }
    }
  }

  /** Recording a success at the next position keeps the kept positions exactly the successes. */
  lemma KeptSuccess(kept: seq<nat>, outcomes: seq<Option<Uploaded>>, u: Uploaded)
    requires forall j :: 0 <= j < |kept| ==> kept[j] < |outcomes|
    requires forall i :: 0 <= i < |outcomes| ==> (outcomes[i].Some? <==> i in kept)
    ensures forall i :: 0 <= i < |outcomes| + 1 ==> ((outcomes + [Some(u)])[i].Some? <==> i in kept + [|outcomes|])
  {
    var n := |outcomes|;
    assert n !in kept;
    forall i | 0 <= i < n + 1
      ensures (outcomes + [Some(u)])[i].Some? <==> i in kept + [n]
    {
      if i < n {
        assert (outcomes + [Some(u)])[i] == outcomes[i];
      }
    }
  }

  /** Recording one more outcome keeps the kept positions exactly the successes. */
  lemma KeptStep(kept: seq<nat>, outcomes: seq<Option<Uploaded>>, r: Option<Uploaded>)
    requires Ascending(kept, |outcomes|)
    requires forall i :: 0 <= i < |outcomes| ==> (outcomes[i].Some? <==> i in kept)
    requires forall j :: 0 <= j < |kept| ==> outcomes[kept[j]].Some?
    ensures KeptExactly(if r.Some? then kept + [|outcomes|] else kept, outcomes + [r])
  {
    var n := |outcomes|;
    AscendingStep(kept, n, r.Some?);
    if r.Some? {
      KeptSuccess(kept, outcomes, r.value);
      var kept', outcomes' := kept + [n], outcomes + [r];
      forall j | 0 <= j < |kept'|
        ensures outcomes'[kept'[j]].Some?
      {
        if j < |kept| {
          assert kept'[j] == kept[j];
          assert outcomes'[kept[j]] == outcomes[kept[j]];
        }
      }
    } else {
      KeptFailure(kept, outcomes);
      forall j | 0 <= j < |kept|
        ensures (outcomes + [r])[kept[j]].Some?
      {
        assert (outcomes + [r])[kept[j]] == outcomes[kept[j]];
      }
    }
  }

  /** A migrated hero image: the source id with the upload's URL and public id. */
  function HeroFrom(img: SourceHeroImage, u: Uploaded, now: int): S.HeroImage {
    S.HeroImage(img.id, u.url, Some(u.publicId), None, now)
  }

  /** A migrated gallery image: the source id and file name with the upload's URL and public id. */
  function ImageFrom(img: SourceImage, u: Uploaded, now: int): G.GalleryImage {
    G.GalleryImage(img.id, img.filename, u.url, Some(u.publicId), img.filename, None, now)
  }

  /** Each migrated hero image is built from the source at its kept position and that position's upload. */
  ghost predicate HeroesBuilt(images: seq<SourceHeroImage>, now: int, migrated: seq<S.HeroImage>,
                              kept: seq<nat>, outcomes: seq<Option<Uploaded>>) {
    |kept| == |migrated| &&
    forall j :: 0 <= j < |kept| ==>
      kept[j] < |images| && kept[j] < |outcomes| && outcomes[kept[j]].Some? &&
      migrated[j] == HeroFrom(images[kept[j]], outcomes[kept[j]].value, now)
  }

  lemma HeroesBuiltStep(images: seq<SourceHeroImage>, now: int, migrated: seq<S.HeroImage>,
                        kept: seq<nat>, outcomes: seq<Option<Uploaded>>, r: Option<Uploaded>)
    requires HeroesBuilt(images, now, migrated, kept, outcomes) && |outcomes| < |images|
    ensures HeroesBuilt(images, now,
                        if r.Some? then migrated + [HeroFrom(images[|outcomes|], r.value, now)] else migrated,
                        if r.Some? then kept + [|outcomes|] else kept, outcomes + [r])
  {
    var n := |outcomes|;
    var outcomes' := outcomes + [r];
    forall j | 0 <= j < |kept| ensures outcomes'[kept[j]] == outcomes[kept[j]] {
    }
  }

  /** Each migrated gallery image is built from the source at its kept position and that position's upload. */
  ghost predicate ImagesBuilt(sources: seq<SourceImage>, now: int, migrated: seq<G.GalleryImage>,
                              kept: seq<nat>, outcomes: seq<Option<Uploaded>>) {
    |kept| == |migrated| &&
    forall j :: 0 <= j < |kept| ==>
      kept[j] < |sources| && kept[j] < |outcomes| && outcomes[kept[j]].Some? &&
      migrated[j] == ImageFrom(sources[kept[j]], outcomes[kept[j]].value, now)
  }

  lemma ImagesBuiltStep(sources: seq<SourceImage>, now: int, migrated: seq<G.GalleryImage>,
                        kept: seq<nat>, outcomes: seq<Option<Uploaded>>, r: Option<Uploaded>)
    requires ImagesBuilt(sources, now, migrated, kept, outcomes) && |outcomes| < |sources|
    ensures ImagesBuilt(sources, now,
                        if r.Some? then migrated + [ImageFrom(sources[|outcomes|], r.value, now)] else migrated,
                        if r.Some? then kept + [|outcomes|] else kept, outcomes + [r])
  {
    var outcomes' := outcomes + [r];
    forall j | 0 <= j < |kept| ensures outcomes'[kept[j]] == outcomes[kept[j]] {
    }
  }

  /**
   * Every cached result is what the host returned for an upload of that
   * path, every successful upload is cached, and a path is never sent
   * again after an upload of it succeeded.
   */
  ghost predicate CacheFaithful(host: Host, cache: map<string, Uploaded>, attempts: seq<Attempt>) {
    (forall p :: p in cache ==>
      exists i :: 0 <= i < |attempts| && attempts[i].fullPath == p && host.upload(attempts[i], i) == Some(cache[p])) &&
    (forall i :: 0 <= i < |attempts| && host.upload(attempts[i], i).Some? ==> attempts[i].fullPath in cache) &&
    (forall i, j :: 0 <= i < j < |attempts| && attempts[i].fullPath == attempts[j].fullPath ==> host.upload(attempts[i], i).None?)
  }

  /** A new attempt for a path not in the cache, with its success cached, keeps the cache faithful. */
  lemma NewAttemptFaithful(host: Host, cache: map<string, Uploaded>, attempts: seq<Attempt>, a: Attempt)
    requires CacheFaithful(host, cache, attempts) && a.fullPath !in cache
    ensures var r := host.upload(a, |attempts|);
            CacheFaithful(host, if r.Some? then cache[a.fullPath := r.value] else cache, attempts + [a])
  {
    var n := |attempts|;
    var r := host.upload(a, n);
    var cache' := if r.Some? then cache[a.fullPath := r.value] else cache;
    var attempts' := attempts + [a];
    forall p | p in cache'
      ensures exists i :: 0 <= i < |attempts'| && attempts'[i].fullPath == p && host.upload(attempts'[i], i) == Some(cache'[p])
    {
      if p == a.fullPath {
        assert attempts'[n] == a;
      } else {
        var i :| 0 <= i < |attempts| && attempts[i].fullPath == p && host.upload(attempts[i], i) == Some(cache[p]);
        assert attempts'[i] == attempts[i];
      }
    }
    forall i | 0 <= i < |attempts'| && host.upload(attempts'[i], i).Some?
      ensures attempts'[i].fullPath in cache'
    {
      if i < n {
        assert attempts'[i] == attempts[i];
      }
    }
    forall i, j | 0 <= i < j < |attempts'| && attempts'[i].fullPath == attempts'[j].fullPath
      ensures host.upload(attempts'[i], i).None?
    {
      assert attempts'[i] == attempts[i];
      if j < n {
        assert attempts'[j] == attempts[j];
      }
    }
  }

  // ---------------------------------------------------------------------
  // Uploads as values

  /** The upload cache and the log of calls made to the host. */
  datatype UploadState = UploadState(cache: map<string, Uploaded>, attempts: seq<Attempt>)

  /** `t` extends `s`: no cached result changes or disappears and the call log only grows. */
  predicate Grows(s: UploadState, t: UploadState) {
    (forall p :: p in s.cache ==> p in t.cache && t.cache[p] == s.cache[p]) &&
    |s.attempts| <= |t.attempts| && t.attempts[..|s.attempts|] == s.attempts
  }

  lemma GrowsTrans(a: UploadState, b: UploadState, c: UploadState)
    requires Grows(a, b) && Grows(b, c)
    ensures Grows(a, c)
  {
    assert c.attempts[..|a.attempts|] == c.attempts[..|b.attempts|][..|a.attempts|];
  }

  /**
   * Why an upload of `localPath` yielded nothing between states `s` and
   * `t`: the path was not cached, and if the file exists the host was
   * called for it in between and that call failed.
   */
  ghost predicate FailureExplained(host: Host, s: UploadState, t: UploadState, localPath: string) {
    FullPath(localPath) !in s.cache &&
    (host.fileExists(FullPath(localPath)) ==>
      exists n :: |s.attempts| <= n < |t.attempts| && t.attempts[n].fullPath == FullPath(localPath) && host.upload(t.attempts[n], n).None?)
  }

  /** A failure explained over a stretch of the run stays explained over any longer stretch. */
  lemma FailureWiden(host: Host, s0: UploadState, s: UploadState, t: UploadState, t': UploadState, localPath: string)
    requires FailureExplained(host, s, t, localPath) && Grows(s0, s) && Grows(t, t')
    ensures FailureExplained(host, s0, t', localPath)
  {
    if host.fileExists(FullPath(localPath)) {
      var n :| |s.attempts| <= n < |t.attempts| && t.attempts[n].fullPath == FullPath(localPath) && host.upload(t.attempts[n], n).None?;
      assert t'.attempts[n] == t'.attempts[..|t.attempts|][n];
    }
  }

  /**
   * `uploadImageToCloudinary` on values: a cached path is answered from
   * the cache with no host call; a missing file yields nothing; otherwise
   * the host is called once and only a success is cached.
   */
  function UploadStep(host: Host, s: UploadState, localPath: string, folder: string): (r: (Option<Uploaded>, UploadState))
    ensures Grows(s, r.1) && |r.1.attempts| <= |s.attempts| + 1
    ensures FullPath(localPath) in s.cache ==> r == (Some(s.cache[FullPath(localPath)]), s)
    ensures r.0.Some? ==> FullPath(localPath) in r.1.cache && r.1.cache[FullPath(localPath)] == r.0.value
    ensures r.0.None? ==> r.1.cache == s.cache
  {
    var full := FullPath(localPath);
    if full in s.cache then (Some(s.cache[full]), s)
    else if !host.fileExists(full) then (None, s)
    else
      var n := |s.attempts|;
      var a := Attempt(full, "leah-budik/" + folder, RequestedId(localPath, host.suffix(n)));
      var u := host.upload(a, n);
      var t := UploadState(if u.Some? then s.cache[full := u.value] else s.cache, s.attempts + [a]);
      assert t.attempts[n] == a && t.attempts[..n] == s.attempts;
      (u, t)
  }

  /** An upload that yields nothing is an explained failure. */
  lemma UploadStepFailure(host: Host, s: UploadState, localPath: string, folder: string)
    ensures UploadStep(host, s, localPath, folder).0.None? ==> FailureExplained(host, s, UploadStep(host, s, localPath, folder).1, localPath)
  {
    var full := FullPath(localPath);
    if full !in s.cache && host.fileExists(full) {
      var n := |s.attempts|;
      var t := UploadStep(host, s, localPath, folder).1;
      assert t.attempts[n].fullPath == full;
    }
  }

  /** The first `n` paths uploaded one after another into `folder`: one outcome per path, in order. */
  function UploadRun(host: Host, s: UploadState, paths: seq<string>, n: nat, folder: string): (r: (seq<Option<Uploaded>>, UploadState))
    requires n <= |paths|
    ensures |r.0| == n && Grows(s, r.1)
  {
    if n == 0 then ([], s)
    else
      var prev := UploadRun(host, s, paths, n - 1, folder);
      var u := UploadStep(host, prev.1, paths[n - 1], folder);
      GrowsTrans(s, prev.1, u.1);
      (prev.0 + [u.0], u.1)
  }

  /**
   * After a run of uploads, each success is what the final cache holds
   * for its path, and each failure is explained: the path was not cached
   * before the run, and an existing file was sent to the host during the
   * run and that call failed.
   */
  lemma {:induction false} UploadRunOutcomes(host: Host, s: UploadState, paths: seq<string>, n: nat, folder: string)
    requires n <= |paths|
    ensures var r := UploadRun(host, s, paths, n, folder);
            forall i :: 0 <= i < n ==>
              (r.0[i].Some? ==> FullPath(paths[i]) in r.1.cache && r.1.cache[FullPath(paths[i])] == r.0[i].value) &&
              (r.0[i].None? ==> FailureExplained(host, s, r.1, paths[i]))
  {
    var r := UploadRun(host, s, paths, n, folder);
    forall i | 0 <= i < n
      ensures (r.0[i].Some? ==> FullPath(paths[i]) in r.1.cache && r.1.cache[FullPath(paths[i])] == r.0[i].value) &&
              (r.0[i].None? ==> FailureExplained(host, s, r.1, paths[i]))
    {
      UploadRunOutcomeAt(host, s, paths, n, folder, i);
    }
  }

  /** Position `i` of the run `r` from `s`: a success is cached, a failure is explained. */
  ghost predicate RunOutcome(host: Host, s: UploadState, r: (seq<Option<Uploaded>>, UploadState), paths: seq<string>, i: nat) {
    i < |r.0| && i < |paths| &&
    (r.0[i].Some? ==> FullPath(paths[i]) in r.1.cache && r.1.cache[FullPath(paths[i])] == r.0[i].value) &&
    (r.0[i].None? ==> FailureExplained(host, s, r.1, paths[i]))
  }

  /** `UploadRunOutcomes` for the one position `i`, by induction on the length of the run. */
  lemma {:induction false} UploadRunOutcomeAt(host: Host, s: UploadState, paths: seq<string>, n: nat, folder: string, i: nat)
    requires i < n <= |paths|
    ensures RunOutcome(host, s, UploadRun(host, s, paths, n, folder), paths, i)
  {
    if i == n - 1 {
      UploadRunOutcomeLast(host, s, paths, n, folder);
    } else {
      UploadRunOutcomeAt(host, s, paths, n - 1, folder, i);
      UploadRunOutcomeKept(host, s, paths, n, folder, i);
    }
  }

  /** The last upload of a run: a success is cached, a failure is explained. */
  lemma UploadRunOutcomeLast(host: Host, s: UploadState, paths: seq<string>, n: nat, folder: string)
    requires 0 < n <= |paths|
    ensures RunOutcome(host, s, UploadRun(host, s, paths, n, folder), paths, n - 1)
  {
    var prev := UploadRun(host, s, paths, n - 1, folder);
    var u := UploadStep(host, prev.1, paths[n - 1], folder);
    assert UploadRun(host, s, paths, n, folder) == (prev.0 + [u.0], u.1);
    if u.0.None? {
      UploadStepFailure(host, prev.1, paths[n - 1], folder);
      FailureWiden(host, s, prev.1, u.1, u.1, paths[n - 1]);
    }
  }

  /** One more upload keeps what an earlier position of the run established. */
  lemma UploadRunOutcomeKept(host: Host, s: UploadState, paths: seq<string>, n: nat, folder: string, i: nat)
    requires i < n - 1 && n <= |paths|
    requires RunOutcome(host, s, UploadRun(host, s, paths, n - 1, folder), paths, i)
    ensures RunOutcome(host, s, UploadRun(host, s, paths, n, folder), paths, i)
  {
    var prev := UploadRun(host, s, paths, n - 1, folder);
    var u := UploadStep(host, prev.1, paths[n - 1], folder);
    assert UploadRun(host, s, paths, n, folder) == (prev.0 + [u.0], u.1);
    assert (prev.0 + [u.0])[i] == prev.0[i];
    if prev.0[i].None? {
      FailureWiden(host, s, s, prev.1, u.1, paths[i]);
    }
  }

  /** The hero images the run keeps after `|outcomes|` uploads: each source whose upload succeeded, in input order. */
  function KeptHeroes(images: seq<SourceHeroImage>, outcomes: seq<Option<Uploaded>>, now: int): (r: seq<S.HeroImage>)
    requires |outcomes| <= |images|
    ensures |r| <= |outcomes|
    ensures (forall i :: 0 <= i < |outcomes| ==> outcomes[i].None?) ==> r == []
  {
    if |outcomes| == 0 then []
    else
      var n := |outcomes| - 1;
      KeptHeroes(images, outcomes[..n], now) + (if outcomes[n].Some? then [HeroFrom(images[n], outcomes[n].value, now)] else [])
  }

  /** When every upload succeeds, every hero image is kept, each in its place. */
  lemma {:induction false} KeptHeroesAllSucceed(images: seq<SourceHeroImage>, outcomes: seq<Option<Uploaded>>, now: int)
    requires |outcomes| <= |images| && forall i :: 0 <= i < |outcomes| ==> outcomes[i].Some?
    ensures var r := KeptHeroes(images, outcomes, now);
            |r| == |outcomes| && forall j :: 0 <= j < |r| ==> r[j] == HeroFrom(images[j], outcomes[j].value, now)
    decreases |outcomes|
  {
    if |outcomes| > 0 {
      KeptHeroesAllSucceed(images, outcomes[..|outcomes| - 1], now);
    }
  }

  /** The gallery images the run keeps after `|outcomes|` uploads: each source whose upload succeeded, in input order. */
  function KeptImages(sources: seq<SourceImage>, outcomes: seq<Option<Uploaded>>, now: int): (r: seq<G.GalleryImage>)
    requires |outcomes| <= |sources|
    ensures |r| <= |outcomes|
    ensures (forall i :: 0 <= i < |outcomes| ==> outcomes[i].None?) ==> r == []
  {
    if |outcomes| == 0 then []
    else
      var n := |outcomes| - 1;
      KeptImages(sources, outcomes[..n], now) + (if outcomes[n].Some? then [ImageFrom(sources[n], outcomes[n].value, now)] else [])
  }

  /** When every upload succeeds, every gallery image is kept, each in its place. */
  lemma {:induction false} KeptImagesAllSucceed(sources: seq<SourceImage>, outcomes: seq<Option<Uploaded>>, now: int)
    requires |outcomes| <= |sources| && forall i :: 0 <= i < |outcomes| ==> outcomes[i].Some?
    ensures var r := KeptImages(sources, outcomes, now);
            |r| == |outcomes| && forall j :: 0 <= j < |r| ==> r[j] == ImageFrom(sources[j], outcomes[j].value, now)
    decreases |outcomes|
  {
    if |outcomes| > 0 {
      KeptImagesAllSucceed(sources, outcomes[..|outcomes| - 1], now);
    }
  }

  /** One more hero upload extends the run of uploads and the kept hero images by that upload. */
  lemma HeroRunStep(host: Host, s0: UploadState, images: seq<SourceHeroImage>, now: int,
                    before: seq<Option<Uploaded>>, st: UploadState, done: seq<S.HeroImage>, r: Option<Uploaded>, st': UploadState)
    requires |before| < |images|
    requires (before, st) == UploadRun(host, s0, HeroPaths(images), |before|, "hero") && done == KeptHeroes(images, before, now)
    requires (r, st') == UploadStep(host, st, images[|before|].path, "hero")
    ensures (before + [r], st') == UploadRun(host, s0, HeroPaths(images), |before| + 1, "hero")
    ensures done + (if r.Some? then [HeroFrom(images[|before|], r.value, now)] else []) == KeptHeroes(images, before + [r], now)
  {
    assert (before + [r])[..|before|] == before;
  }

  /** One more gallery-image upload extends the run of uploads and the kept images by that upload. */
  lemma ImageRunStep(host: Host, s0: UploadState, sources: seq<SourceImage>, folder: string, now: int,
                     before: seq<Option<Uploaded>>, st: UploadState, done: seq<G.GalleryImage>, r: Option<Uploaded>, st': UploadState)
    requires |before| < |sources|
    requires (before, st) == UploadRun(host, s0, SourcePaths(sources), |before|, folder) && done == KeptImages(sources, before, now)
    requires (r, st') == UploadStep(host, st, sources[|before|].path, folder)
    ensures (before + [r], st') == UploadRun(host, s0, SourcePaths(sources), |before| + 1, folder)
    ensures done + (if r.Some? then [ImageFrom(sources[|before|], r.value, now)] else []) == KeptImages(sources, before + [r], now)
  {
    assert (before + [r])[..|before|] == before;
  }

  /**
   * The state of the hero loop after `|outcomes|` images: the outcomes and
   * the upload state are those of the run so far, the kept positions are
   * exactly its successes, and the migrated images are those it keeps.
   */
  ghost predicate HeroProgress(host: Host, s0: UploadState, images: seq<SourceHeroImage>, now: int, st: UploadState,
                               migrated: seq<S.HeroImage>, kept: seq<nat>, outcomes: seq<Option<Uploaded>>) {
    |outcomes| <= |images| &&
    KeptExactly(kept, outcomes) && HeroesBuilt(images, now, migrated, kept, outcomes) &&
    (outcomes, st) == UploadRun(host, s0, HeroPaths(images), |outcomes|, "hero") && migrated == KeptHeroes(images, outcomes, now)
  }

  /** Uploading the next hero image keeps the hero loop's state. */
  lemma HeroProgressStep(host: Host, s0: UploadState, images: seq<SourceHeroImage>, now: int, st: UploadState,
                         migrated: seq<S.HeroImage>, kept: seq<nat>, outcomes: seq<Option<Uploaded>>,
                         r: Option<Uploaded>, st': UploadState, migrated': seq<S.HeroImage>, kept': seq<nat>)
    requires HeroProgress(host, s0, images, now, st, migrated, kept, outcomes) && |outcomes| < |images|
    requires (r, st') == UploadStep(host, st, images[|outcomes|].path, "hero")
    requires migrated' == migrated + (if r.Some? then [HeroFrom(images[|outcomes|], r.value, now)] else [])
    requires kept' == if r.Some? then kept + [|outcomes|] else kept
    ensures HeroProgress(host, s0, images, now, st', migrated', kept', outcomes + [r])
  {
    KeptStep(kept, outcomes, r);
    HeroesBuiltStep(images, now, migrated, kept, outcomes, r);
    HeroRunStep(host, s0, images, now, outcomes, st, migrated, r, st');
  }

  /**
   * The state of the image loop of a gallery after `|outcomes|` images,
   * as `HeroProgress` states it for the hero loop.
   */
  ghost predicate ImageProgress(host: Host, s0: UploadState, sources: seq<SourceImage>, folder: string, now: int, st: UploadState,
                                migrated: seq<G.GalleryImage>, kept: seq<nat>, outcomes: seq<Option<Uploaded>>) {
    |outcomes| <= |sources| &&
    KeptExactly(kept, outcomes) && ImagesBuilt(sources, now, migrated, kept, outcomes) &&
    (outcomes, st) == UploadRun(host, s0, SourcePaths(sources), |outcomes|, folder) && migrated == KeptImages(sources, outcomes, now)
  }

  /**
   * The hero loop has run to the end, from upload state `s0` to `st`:
   * `HeroProgress` over all the images, every success is what the cache
   * now holds for its path, and every failure is explained by the host.
   */
  ghost predicate HeroesDone(host: Host, s0: UploadState, images: seq<SourceHeroImage>, now: int, st: UploadState,
                             migrated: seq<S.HeroImage>, kept: seq<nat>, outcomes: seq<Option<Uploaded>>) {
    |outcomes| == |images| &&
    HeroProgress(host, s0, images, now, st, migrated, kept, outcomes) &&
    (forall i :: 0 <= i < |images| && outcomes[i].Some? ==>
       FullPath(images[i].path) in st.cache && st.cache[FullPath(images[i].path)] == outcomes[i].value) &&
    (forall i :: 0 <= i < |images| && outcomes[i].None? ==> FailureExplained(host, s0, st, images[i].path))
  }

  /** The image loop of a gallery has run to the end, as `HeroesDone` states it for the hero loop. */
  ghost predicate ImagesDone(host: Host, s0: UploadState, sources: seq<SourceImage>, folder: string, now: int, st: UploadState,
                             migrated: seq<G.GalleryImage>, kept: seq<nat>, outcomes: seq<Option<Uploaded>>) {
    |outcomes| == |sources| &&
    ImageProgress(host, s0, sources, folder, now, st, migrated, kept, outcomes) &&
    (forall i :: 0 <= i < |sources| && outcomes[i].Some? ==>
       FullPath(sources[i].path) in st.cache && st.cache[FullPath(sources[i].path)] == outcomes[i].value) &&
    (forall i :: 0 <= i < |sources| && outcomes[i].None? ==> FailureExplained(host, s0, st, sources[i].path))
  }

  /** Uploading the next gallery image keeps the image loop's state. */
  lemma ImageProgressStep(host: Host, s0: UploadState, sources: seq<SourceImage>, folder: string, now: int, st: UploadState,
                          migrated: seq<G.GalleryImage>, kept: seq<nat>, outcomes: seq<Option<Uploaded>>,
                          r: Option<Uploaded>, st': UploadState, migrated': seq<G.GalleryImage>, kept': seq<nat>)
    requires ImageProgress(host, s0, sources, folder, now, st, migrated, kept, outcomes) && |outcomes| < |sources|
    requires (r, st') == UploadStep(host, st, sources[|outcomes|].path, folder)
    requires migrated' == migrated + (if r.Some? then [ImageFrom(sources[|outcomes|], r.value, now)] else [])
    requires kept' == if r.Some? then kept + [|outcomes|] else kept
    ensures ImageProgress(host, s0, sources, folder, now, st', migrated', kept', outcomes + [r])
  {
    KeptStep(kept, outcomes, r);
    ImagesBuiltStep(sources, now, migrated, kept, outcomes, r);
    ImageRunStep(host, s0, sources, folder, now, outcomes, st, migrated, r, st');
  }

  /** The hero step of the content migration on values: only a non-empty list is uploaded, into `hero`. */
  function HeroUploads(host: Host, s: UploadState, heroImages: Option<seq<SourceHeroImage>>, now: int): (r: (seq<S.HeroImage>, UploadState))
    ensures Grows(s, r.1)
    ensures heroImages.None? || |heroImages.value| == 0 ==> r == ([], s)
    ensures heroImages.Some? ==> |r.0| <= |heroImages.value|
  {
    if heroImages.Some? && |heroImages.value| > 0 then
      var u := UploadRun(host, s, HeroPaths(heroImages.value), |heroImages.value|, "hero");
      (KeptHeroes(heroImages.value, u.0, now), u.1)
    else ([], s)
  }

  /**
   * What one logo key ends up as: a key whose path is unset stays absent;
   * a filled key holds the URL and its public-id key the public id that
   * the cache holds for the path; a set path left unfilled is an
   * explained failure.
   */
  ghost predicate SlotDone(host: Host, s: UploadState, t: UploadState, logo: map<string, string>, key: string, out: map<string, string>) {
    var path := Lookup(logo, key);
    (!Truthy(path) ==> key !in out) &&
    (Truthy(path) && key in out ==>
      FullPath(path.value) in t.cache && key + "PublicId" in out &&
      out[key] == t.cache[FullPath(path.value)].url && out[key + "PublicId"] == t.cache[FullPath(path.value)].publicId) &&
    (Truthy(path) && key !in out ==> FailureExplained(host, s, t, path.value))
  }

  lemma SlotDoneWiden(host: Host, s0: UploadState, s: UploadState, t: UploadState, t': UploadState,
                      logo: map<string, string>, key: string, out: map<string, string>, out': map<string, string>)
    requires SlotDone(host, s, t, logo, key, out) && Grows(s0, s) && Grows(t, t')
    requires (key in out' <==> key in out) && (key in out ==> out'[key] == out[key])
    requires (key + "PublicId" in out' <==> key + "PublicId" in out) && (key + "PublicId" in out ==> out'[key + "PublicId"] == out[key + "PublicId"])
    ensures SlotDone(host, s0, t', logo, key, out')
  {
    var path := Lookup(logo, key);
    if Truthy(path) && key !in out {
      FailureWiden(host, s0, s, t, t', path.value);
    }
  }

  /** One key of `migrateLogo` on values: a set path is uploaded and a success fills the key and its public-id key. */
  function LogoSlot(host: Host, s: UploadState, logo: map<string, string>, key: string, acc: map<string, string>)
    : (r: (map<string, string>, UploadState))
    ensures Grows(s, r.1)
    ensures !Truthy(Lookup(logo, key)) ==> r == (acc, s)
    ensures forall k :: k != key && k != key + "PublicId" ==> (k in r.0 <==> k in acc) && (k in acc ==> r.0[k] == acc[k])
    ensures key !in acc ==> SlotDone(host, s, r.1, logo, key, r.0)
  {
    var path := Lookup(logo, key);
    if !Truthy(path) then (acc, s)
    else
      var u := UploadStep(host, s, path.value, "logo");
      UploadStepFailure(host, s, path.value, "logo");
      (if u.0.Some? then acc[key := u.0.value.url][key + "PublicId" := u.0.value.publicId] else acc, u.1)
  }

  /** `migrateLogo` on values: the main, light and favicon logos, in that order. */
  function LogoUploads(host: Host, s: UploadState, logo: map<string, string>): (r: (map<string, string>, UploadState))
    ensures Grows(s, r.1)
  {
    var m := LogoSlot(host, s, logo, "main", map[]);
    var l := LogoSlot(host, m.1, logo, "light", m.0);
    var f := LogoSlot(host, l.1, logo, "favicon", l.0);
    GrowsTrans(s, m.1, l.1);
    GrowsTrans(s, l.1, f.1);
    f
  }

  /** The migrated logo holds only the six schema keys. */
  lemma LogoUploadsKeys(host: Host, s: UploadState, logo: map<string, string>)
    ensures LogoUploads(host, s, logo).0.Keys <= {"main", "mainPublicId", "light", "lightPublicId", "favicon", "faviconPublicId"}
  {
    assert "main" + "PublicId" == "mainPublicId";
    assert "light" + "PublicId" == "lightPublicId";
    assert "favicon" + "PublicId" == "faviconPublicId";
    var m := LogoSlot(host, s, logo, "main", map[]);
    var l := LogoSlot(host, m.1, logo, "light", m.0);
    assert m.0.Keys <= {"main", "mainPublicId"};
    assert l.0.Keys <= {"main", "mainPublicId", "light", "lightPublicId"};
  }

  /** A later logo key, whose two keys differ from this key's, leaves this key's outcome as it was. */
  lemma SlotSurvives(host: Host, s: UploadState, t: UploadState, logo: map<string, string>, key: string,
                     out: map<string, string>, later: string)
    requires SlotDone(host, s, t, logo, key, out)
    requires later != key && later != key + "PublicId" && later + "PublicId" != key && later + "PublicId" != key + "PublicId"
    ensures var r := LogoSlot(host, t, logo, later, out);
            SlotDone(host, s, r.1, logo, key, r.0)
  {
    var r := LogoSlot(host, t, logo, later, out);
    SlotDoneWiden(host, s, s, t, r.1, logo, key, out, r.0);
  }

  /**
   * Each of the main, light and favicon keys of the migrated logo is
   * absent when unset, filled from the cache when its upload succeeded,
   * and an explained failure otherwise.
   */
  lemma LogoUploadsSlots(host: Host, s: UploadState, logo: map<string, string>)
    ensures var r := LogoUploads(host, s, logo);
            SlotDone(host, s, r.1, logo, "main", r.0) && SlotDone(host, s, r.1, logo, "light", r.0) &&
            SlotDone(host, s, r.1, logo, "favicon", r.0)
  {
    MainSlotDone(host, s, logo);
    LightSlotDone(host, s, logo);
    FaviconSlotDone(host, s, logo);
  }

  lemma MainSlotDone(host: Host, s: UploadState, logo: map<string, string>)
    ensures var r := LogoUploads(host, s, logo);
            SlotDone(host, s, r.1, logo, "main", r.0)
  {
    var m := LogoSlot(host, s, logo, "main", map[]);
    var l := LogoSlot(host, m.1, logo, "light", m.0);
    SlotSurvives(host, s, m.1, logo, "main", m.0, "light");
    SlotSurvives(host, s, l.1, logo, "main", l.0, "favicon");
  }

  lemma LightSlotDone(host: Host, s: UploadState, logo: map<string, string>)
    ensures var r := LogoUploads(host, s, logo);
            SlotDone(host, s, r.1, logo, "light", r.0)
  {
    var m := LogoSlot(host, s, logo, "main", map[]);
    var l := LogoSlot(host, m.1, logo, "light", m.0);
    assert "light" !in m.0;
    SlotDoneWiden(host, s, m.1, l.1, l.1, logo, "light", l.0, l.0);
    SlotSurvives(host, s, l.1, logo, "light", l.0, "favicon");
  }

  lemma FaviconSlotDone(host: Host, s: UploadState, logo: map<string, string>)
    ensures var r := LogoUploads(host, s, logo);
            SlotDone(host, s, r.1, logo, "favicon", r.0)
  {
    var m := LogoSlot(host, s, logo, "main", map[]);
    var l := LogoSlot(host, m.1, logo, "light", m.0);
    var f := LogoSlot(host, l.1, logo, "favicon", l.0);
    assert "favicon" !in l.0;
    GrowsTrans(s, m.1, l.1);
    SlotDoneWiden(host, s, l.1, f.1, f.1, logo, "favicon", f.0, f.0);
  }

  /**
   * The upload part of `migrateContent` on values: the logo when there is
   * one, then the hero images, then a set about image, into `about`.
   */
  function ContentUploads(host: Host, s: UploadState, f: SourceContent): (r: (MigratedMedia, UploadState))
    ensures Grows(s, r.1)
    ensures f.logo.None? ==> r.0.logo == map[]
    ensures f.heroImages.None? || |f.heroImages.value| == 0 ==> r.0.heroImages == []
    ensures !Truthy(f.aboutImage) ==> r.0.image == "" && r.0.imagePublicId == ""
  {
    var lg := if f.logo.Some? then LogoUploads(host, s, f.logo.value) else (map[], s);
    var hr := HeroUploads(host, lg.1, f.heroImages, f.now);
    var ab := if Truthy(f.aboutImage) then UploadStep(host, hr.1, f.aboutImage.value, "about") else (None, hr.1);
    GrowsTrans(s, lg.1, hr.1);
    GrowsTrans(s, hr.1, ab.1);
    (MigratedMedia(lg.0, hr.0, if ab.0.Some? then ab.0.value.url else "", if ab.0.Some? then ab.0.value.publicId else ""), ab.1)
  }

  /**
   * What the logo migration leaves: only the six schema keys, one more
   * logo count per set path, and with no new failure every set key filled
   * with its public-id key.
   */
  predicate LogoTallied(logo: map<string, string>, out: map<string, string>, before: Tally, after: Tally) {
    out.Keys <= {"main", "mainPublicId", "light", "lightPublicId", "favicon", "faviconPublicId"} &&
    after.succeeded + after.failed == before.succeeded + before.failed
      + (if Truthy(Lookup(logo, "main")) then 1 else 0)
      + (if Truthy(Lookup(logo, "light")) then 1 else 0)
      + (if Truthy(Lookup(logo, "favicon")) then 1 else 0) &&
    (after.failed == before.failed ==>
      (Truthy(Lookup(logo, "main")) ==> "main" in out && "mainPublicId" in out) &&
      (Truthy(Lookup(logo, "light")) ==> "light" in out && "lightPublicId" in out) &&
      (Truthy(Lookup(logo, "favicon")) ==> "favicon" in out && "faviconPublicId" in out))
  }

  class Migrator {
    var cache: map<string, Uploaded>
    var attempts: seq<Attempt>
    var results: Results

    ghost predicate Valid(host: Host)
      reads this
    {
      CacheFaithful(host, cache, attempts)
    }

    constructor (host: Host)
      ensures Valid(host) && cache == map[] && attempts == [] && results == NoResults
    {
      cache := map[];
      attempts := [];
      results := NoResults;
    }

    /**
     * `uploadImageToCloudinary`: a path already uploaded is answered from
     * the cache without calling the host; a missing file yields `None`;
     * otherwise the host is called once and only a success is cached.
     */
    method UploadImage(host: Host, localPath: string, folder: string) returns (r: Option<Uploaded>)
      requires Valid(host)
      modifies this
      ensures Valid(host) && results == old(results)
      ensures var full := FullPath(localPath);
              (full in old(cache) ==> r == Some(old(cache)[full]) && cache == old(cache) && attempts == old(attempts)) &&
              (full !in old(cache) && !host.fileExists(full) ==> r.None? && cache == old(cache) && attempts == old(attempts)) &&
              (full !in old(cache) && host.fileExists(full) ==>
                var a := Attempt(full, "leah-budik/" + folder, RequestedId(localPath, host.suffix(|old(attempts)|)));
                attempts == old(attempts) + [a] && r == host.upload(a, |old(attempts)|) &&
                cache == if r.Some? then old(cache)[full := r.value] else old(cache))
      ensures r.Some? ==> FullPath(localPath) in cache && cache[FullPath(localPath)] == r.value
      ensures forall p :: p in old(cache) ==> p in cache && cache[p] == old(cache)[p]
      ensures (r, UploadState(cache, attempts)) == UploadStep(host, UploadState(old(cache), old(attempts)), localPath, folder)
    {
      var full := FullPath(localPath);
      if full in cache {
        return Some(cache[full]);
      }
      if !host.fileExists(full) {
        return None;
      }
      var n := |attempts|;
      var a := Attempt(full, "leah-budik/" + folder, RequestedId(localPath, host.suffix(n)));
      NewAttemptFaithful(host, cache, attempts, a);
      attempts := attempts + [a];
      r := host.upload(a, n);
      if r.Some? {
        cache := cache[full := r.value];
      }
    }

    /** Uploading the same path twice calls the host at most once and gives the first result again. */
    method UploadTwice(host: Host, localPath: string, folder: string) returns (first: Option<Uploaded>, second: Option<Uploaded>)
      requires Valid(host)
      modifies this
      ensures Valid(host)
      ensures first.Some? ==> second == first
      ensures |attempts| <= |old(attempts)| + 1 + (if first.Some? then 0 else 1)
    {
      first := UploadImage(host, localPath, folder);
      ghost var between := attempts;
      second := UploadImage(host, localPath, folder);
      if first.Some? {
        assert attempts == between;
      }
    }

    /** Records one more success or failure in one tally. */
    static function Count(t: Tally, ok: bool): (r: Tally)
      ensures r.succeeded + r.failed == t.succeeded + t.failed + 1
      ensures ok <==> r.succeeded == t.succeeded + 1
    {
      if ok then t.(succeeded := t.succeeded + 1) else t.(failed := t.failed + 1)
    }

    /**
     * `migrateHeroImages`: each image is uploaded in turn; the successes
     * keep their id, in input order, with the host's URL and public id;
     * the failures are dropped and counted.
     */
    method MigrateHeroImages(host: Host, images: seq<SourceHeroImage>, now: int)
      returns (migrated: seq<S.HeroImage>, kept: seq<nat>, ghost outcomes: seq<Option<Uploaded>>)
      requires Valid(host)
      modifies this
      ensures Valid(host)
      ensures |kept| == |migrated| <= |images|
      ensures results == old(results).(hero := Tally(old(results).hero.succeeded + |migrated|, old(results).hero.failed + |images| - |migrated|))
      ensures HeroesDone(host, UploadState(old(cache), old(attempts)), images, now, UploadState(cache, attempts), migrated, kept, outcomes)
    {
      ghost var s0 := UploadState(cache, attempts);
      migrated := [];
      kept := [];
      outcomes := [];
      var i := 0;
      while i < |images|
        invariant 0 <= i <= |images| && |outcomes| == i
        invariant Valid(host)
        invariant |migrated| <= i
        invariant results == old(results).(hero := Tally(old(results).hero.succeeded + |migrated|, old(results).hero.failed + i - |migrated|))
        invariant HeroProgress(host, s0, images, now, UploadState(cache, attempts), migrated, kept, outcomes)
      {
        migrated, kept, outcomes := HeroStep(host, images, now, i, migrated, kept, outcomes, s0);
        i := i + 1;
      }
      UploadRunOutcomes(host, s0, HeroPaths(images), i, "hero");
    }

    /** One round of the `migrateHeroImages` loop: the next image is uploaded, kept on success, and counted. */
    method HeroStep(host: Host, images: seq<SourceHeroImage>, now: int, i: nat, migrated: seq<S.HeroImage>,
                    kept: seq<nat>, ghost outcomes: seq<Option<Uploaded>>, ghost s0: UploadState)
      returns (migrated': seq<S.HeroImage>, kept': seq<nat>, ghost outcomes': seq<Option<Uploaded>>)
      requires Valid(host) && i == |outcomes| < |images|
      requires HeroProgress(host, s0, images, now, UploadState(cache, attempts), migrated, kept, outcomes)
      modifies this
      ensures Valid(host) && |outcomes'| == |outcomes| + 1
      ensures HeroProgress(host, s0, images, now, UploadState(cache, attempts), migrated', kept', outcomes')
      ensures |migrated'| == |migrated| + (if outcomes'[|outcomes|].Some? then 1 else 0)
      ensures results == old(results).(hero := Count(old(results).hero, outcomes'[|outcomes|].Some?))
      ensures var u := UploadStep(host, UploadState(old(cache), old(attempts)), images[i].path, "hero");
              outcomes' == outcomes + [u.0] && UploadState(cache, attempts) == u.1
    {
      ghost var st := UploadState(cache, attempts);
      var r := UploadImage(host, images[i].path, "hero");
      if r.Some? {
        migrated', kept' := migrated + [HeroFrom(images[i], r.value, now)], kept + [i];
      } else {
        migrated', kept' := migrated, kept;
      }
      outcomes' := outcomes + [r];
      results := results.(hero := Count(results.hero, r.Some?));
      HeroProgressStep(host, s0, images, now, st, migrated, kept, outcomes, r, UploadState(cache, attempts), migrated', kept');
    }

    /**
     * `migrateAboutImage`: no image gives empty fields and no count; an
     * upload gives its URL and public id, a failure empty fields and a
     * failure count.
     */
    method MigrateAboutImage(host: Host, imagePath: Option<string>) returns (image: string, imagePublicId: string)
      requires Valid(host)
      modifies this
      ensures Valid(host)
      ensures !Truthy(imagePath) ==> image == "" && imagePublicId == "" && results == old(results)
      ensures Truthy(imagePath) ==>
        results.about.succeeded + results.about.failed == old(results).about.succeeded + old(results).about.failed + 1 &&
        results == old(results).(about := results.about) &&
        (image != "" || imagePublicId != "" ==> results.about.succeeded == old(results).about.succeeded + 1)
      ensures !Truthy(imagePath) ==> cache == old(cache) && attempts == old(attempts)
      ensures Truthy(imagePath) ==>
        var u := UploadStep(host, UploadState(old(cache), old(attempts)), imagePath.value, "about");
        UploadState(cache, attempts) == u.1 && results == old(results).(about := Count(old(results).about, u.0.Some?)) &&
        image == (if u.0.Some? then u.0.value.url else "") && imagePublicId == (if u.0.Some? then u.0.value.publicId else "")
    {
      if !Truthy(imagePath) {
        return "", "";
      }
      var r := UploadImage(host, imagePath.value, "about");
      results := results.(about := Count(results.about, r.Some?));
      if r.Some? {
        image, imagePublicId := r.value.url, r.value.publicId;
      } else {
        image, imagePublicId := "", "";
      }
    }

    /**
     * One key of `migrateLogo`: a set path is uploaded; a success fills the
     * key with the URL and the key's public-id field with the public id.
     */
    method MigrateLogoEntry(host: Host, logo: map<string, string>, key: string, acc: map<string, string>)
      returns (out: map<string, string>, uploaded: Option<Uploaded>)
      requires Valid(host)
      modifies this
      ensures Valid(host)
      ensures !Truthy(Lookup(logo, key)) ==> uploaded.None? && results == old(results)
      ensures Truthy(Lookup(logo, key)) ==>
        results == old(results).(logo := Count(old(results).logo, uploaded.Some?))
      ensures out == if uploaded.Some? then acc[key := uploaded.value.url][key + "PublicId" := uploaded.value.publicId] else acc
      ensures Truthy(Lookup(logo, key)) ==>
        (uploaded, UploadState(cache, attempts)) == UploadStep(host, UploadState(old(cache), old(attempts)), Lookup(logo, key).value, "logo")
      ensures (out, UploadState(cache, attempts)) == LogoSlot(host, UploadState(old(cache), old(attempts)), logo, key, acc)
    {
      var path := Lookup(logo, key);
      if !Truthy(path) {
        return acc, None;
      }
      uploaded := UploadImage(host, path.value, "logo");
      results := results.(logo := Count(results.logo, uploaded.Some?));
      out := if uploaded.Some? then acc[key := uploaded.value.url][key + "PublicId" := uploaded.value.publicId] else acc;
    }

    /** `migrateLogo`: the main, light and favicon logos, in that order. */
    method MigrateLogo(host: Host, logo: map<string, string>) returns (out: map<string, string>)
      requires Valid(host)
      modifies this
      ensures Valid(host)
      ensures results == old(results).(logo := results.logo)
      ensures LogoTallied(logo, out, old(results).logo, results.logo)
      ensures (out, UploadState(cache, attempts)) == LogoUploads(host, UploadState(old(cache), old(attempts)), logo)
      ensures var s0, s1 := UploadState(old(cache), old(attempts)), UploadState(cache, attempts);
              SlotDone(host, s0, s1, logo, "main", out) && SlotDone(host, s0, s1, logo, "light", out) &&
              SlotDone(host, s0, s1, logo, "favicon", out)
    {
      assert "main" + "PublicId" == "mainPublicId";
      assert "light" + "PublicId" == "lightPublicId";
      assert "favicon" + "PublicId" == "faviconPublicId";
      var u1, u2, u3;
      out, u1 := MigrateLogoEntry(host, logo, "main", map[]);
      out, u2 := MigrateLogoEntry(host, logo, "light", out);
      out, u3 := MigrateLogoEntry(host, logo, "favicon", out);
      LogoUploadsSlots(host, UploadState(old(cache), old(attempts)), logo);
      LogoUploadsKeys(host, UploadState(old(cache), old(attempts)), logo);
    }

    /** The logo step of `migrateContent`: only a logo present in the file is migrated. */
    method MigrateLogoPart(host: Host, logo: Option<map<string, string>>) returns (out: map<string, string>)
      requires Valid(host)
      modifies this
      ensures Valid(host)
      ensures results == old(results).(logo := results.logo)
      ensures logo.None? ==> out == map[] && results.logo == old(results).logo
      ensures logo.Some? ==> LogoTallied(logo.value, out, old(results).logo, results.logo)
      ensures (out, UploadState(cache, attempts))
        == if logo.Some? then LogoUploads(host, UploadState(old(cache), old(attempts)), logo.value) else (map[], UploadState(old(cache), old(attempts)))
    {
      out := map[];
      if logo.Some? {
        out := MigrateLogo(host, logo.value);
      }
    }

    /** The hero step of `migrateContent`: only a non-empty list of hero images is migrated. */
    method MigrateHeroPart(host: Host, heroImages: Option<seq<SourceHeroImage>>, now: int) returns (hero: seq<S.HeroImage>)
      requires Valid(host)
      modifies this
      ensures Valid(host)
      ensures results == old(results).(hero := results.hero)
      ensures heroImages.None? || |heroImages.value| == 0 ==> hero == [] && results.hero == old(results).hero
      ensures heroImages.Some? ==>
        results.hero.succeeded + results.hero.failed == old(results).hero.succeeded + old(results).hero.failed + |heroImages.value| &&
        |hero| <= |heroImages.value| &&
        forall j :: 0 <= j < |hero| ==> hero[j].id in HeroIds(heroImages.value)
      ensures heroImages.Some? ==>
        results.hero == Tally(old(results).hero.succeeded + |hero|, old(results).hero.failed + |heroImages.value| - |hero|)
      ensures (hero, UploadState(cache, attempts)) == HeroUploads(host, UploadState(old(cache), old(attempts)), heroImages, now)
    {
      hero := [];
      if heroImages.Some? && |heroImages.value| > 0 {
        var kept;
        ghost var outcomes;
        hero, kept, outcomes := MigrateHeroImages(host, heroImages.value, now);
        forall j | 0 <= j < |hero| ensures hero[j].id in HeroIds(heroImages.value) {
          assert hero[j].id == HeroIds(heroImages.value)[kept[j]];
        }
      }
    }

    /**
     * The upload part of `migrateContent`: without a content file nothing
     * is uploaded and the empty document counts as saved; otherwise the
     * media are migrated and the content succeeds when it is saved.
     */
    method MigrateContent(host: Host, file: Option<SourceContent>, saved: bool) returns (media: MigratedMedia)
      requires Valid(host)
      modifies this
      ensures Valid(host)
      ensures results.galleries == old(results).galleries && results.galleryImages == old(results).galleryImages
      ensures file.None? ==> results == old(results).(contentSuccess := true) && media == MigratedMedia(map[], [], "", "")
      ensures file.Some? ==> results.contentSuccess == saved
      ensures file.Some? && file.value.logo.None? ==> media.logo == map[] && results.logo == old(results).logo
      ensures file.Some? && (file.value.heroImages.None? || |file.value.heroImages.value| == 0) ==>
        media.heroImages == [] && results.hero == old(results).hero
      ensures file.Some? && file.value.heroImages.Some? ==>
        results.hero.succeeded + results.hero.failed == old(results).hero.succeeded + old(results).hero.failed + |file.value.heroImages.value|
      ensures file.Some? && file.value.heroImages.Some? ==>
        |media.heroImages| <= |file.value.heroImages.value| &&
        forall j :: 0 <= j < |media.heroImages| ==> media.heroImages[j].id in HeroIds(file.value.heroImages.value)
      ensures file.Some? && file.value.logo.Some? ==> LogoTallied(file.value.logo.value, media.logo, old(results).logo, results.logo)
      ensures file.Some? && !Truthy(file.value.aboutImage) ==>
        media.image == "" && media.imagePublicId == "" && results.about == old(results).about
      ensures file.Some? && Truthy(file.value.aboutImage) ==>
        results.about.succeeded + results.about.failed == old(results).about.succeeded + old(results).about.failed + 1 &&
        (media.image != "" || media.imagePublicId != "" ==> results.about.succeeded == old(results).about.succeeded + 1)
      ensures file.None? ==> cache == old(cache) && attempts == old(attempts)
      ensures file.Some? ==> (media, UploadState(cache, attempts)) == ContentUploads(host, UploadState(old(cache), old(attempts)), file.value)
    {
      if file.None? {
        results := results.(contentSuccess := true);
        return MigratedMedia(map[], [], "", "");
      }
      media := MigrateMedia(host, file.value);
      results := results.(contentSuccess := saved);
    }

    /** The logo, the hero images (when there are any) and the about image of the content, in that order. */
    method MigrateMedia(host: Host, f: SourceContent) returns (media: MigratedMedia)
      requires Valid(host)
      modifies this
      ensures Valid(host)
      ensures results == old(results).(logo := results.logo, hero := results.hero, about := results.about)
      ensures f.logo.None? ==> media.logo == map[] && results.logo == old(results).logo
      ensures f.heroImages.None? || |f.heroImages.value| == 0 ==> media.heroImages == [] && results.hero == old(results).hero
      ensures f.heroImages.Some? ==>
        results.hero.succeeded + results.hero.failed == old(results).hero.succeeded + old(results).hero.failed + |f.heroImages.value|
      ensures f.heroImages.Some? ==>
        |media.heroImages| <= |f.heroImages.value| &&
        forall j :: 0 <= j < |media.heroImages| ==> media.heroImages[j].id in HeroIds(f.heroImages.value)
      ensures f.logo.Some? ==> LogoTallied(f.logo.value, media.logo, old(results).logo, results.logo)
      ensures !Truthy(f.aboutImage) ==> media.image == "" && media.imagePublicId == "" && results.about == old(results).about
      ensures Truthy(f.aboutImage) ==>
        results.about.succeeded + results.about.failed == old(results).about.succeeded + old(results).about.failed + 1 &&
        (media.image != "" || media.imagePublicId != "" ==> results.about.succeeded == old(results).about.succeeded + 1)
      ensures (media, UploadState(cache, attempts)) == ContentUploads(host, UploadState(old(cache), old(attempts)), f)
    {
      var logo := MigrateLogoPart(host, f.logo);
      var hero := MigrateHeroPart(host, f.heroImages, f.now);
      var image, imagePublicId := "", "";
      if f.aboutImage.Some? && f.aboutImage.value != "" {
        image, imagePublicId := MigrateAboutImage(host, f.aboutImage);
      }
      media := MigratedMedia(logo, hero, image, imagePublicId);
    }

    /**
     * `migrateGallery`: the gallery's images are uploaded in order into the
     * gallery's folder; the successes keep their id and file name, the
     * failures are dropped and counted; the document takes its cover and
     * defaults from `MigratedDoc`.
     */
    method MigrateGallery(host: Host, g: SourceGallery, index: nat, docId: string, now: int)
      returns (doc: G.Gallery, kept: seq<nat>, ghost outcomes: seq<Option<Uploaded>>)
      requires Valid(host)
      modifies this
      ensures Valid(host)
      ensures doc == MigratedDoc(g, index, doc.images, docId, now)
      ensures var sources := g.images.GetOr([]);
              |kept| == |doc.images| <= |sources| &&
              results == old(results).(galleryImages := Tally(old(results).galleryImages.succeeded + |doc.images|,
                                                              old(results).galleryImages.failed + |sources| - |doc.images|))
      ensures ImagesDone(host, UploadState(old(cache), old(attempts)), g.images.GetOr([]), "galleries/" + g.id, now,
                         UploadState(cache, attempts), doc.images, kept, outcomes)
    {
      var migrated;
      migrated, kept, outcomes := MigrateImages(host, g.images.GetOr([]), "galleries/" + g.id, now);
      doc := MigratedDoc(g, index, migrated, docId, now);
    }

    /** The image loop of `migrateGallery`: each source image is uploaded in turn into `folder`. */
    method MigrateImages(host: Host, sources: seq<SourceImage>, folder: string, now: int)
      returns (migrated: seq<G.GalleryImage>, kept: seq<nat>, ghost outcomes: seq<Option<Uploaded>>)
      requires Valid(host)
      modifies this
      ensures Valid(host)
      ensures |kept| == |migrated| <= |sources|
      ensures results == old(results).(galleryImages := Tally(old(results).galleryImages.succeeded + |migrated|,
                                                              old(results).galleryImages.failed + |sources| - |migrated|))
      ensures ImagesDone(host, UploadState(old(cache), old(attempts)), sources, folder, now, UploadState(cache, attempts), migrated, kept, outcomes)
    {
      ghost var s0 := UploadState(cache, attempts);
      migrated := [];
      kept := [];
      outcomes := [];
      var i := 0;
      while i < |sources|
        invariant 0 <= i <= |sources| && |outcomes| == i
        invariant Valid(host)
        invariant |migrated| <= i
        invariant results == old(results).(galleryImages := Tally(old(results).galleryImages.succeeded + |migrated|,
                                                                   old(results).galleryImages.failed + i - |migrated|))
        invariant ImageProgress(host, s0, sources, folder, now, UploadState(cache, attempts), migrated, kept, outcomes)
      {
        migrated, kept, outcomes := ImageStep(host, sources, folder, now, i, migrated, kept, outcomes, s0);
        i := i + 1;
      }
      UploadRunOutcomes(host, s0, SourcePaths(sources), i, folder);
    }

    /** One round of the image loop of `migrateGallery`: the next image is uploaded, kept on success, and counted. */
    method ImageStep(host: Host, sources: seq<SourceImage>, folder: string, now: int, i: nat, migrated: seq<G.GalleryImage>,
                     kept: seq<nat>, ghost outcomes: seq<Option<Uploaded>>, ghost s0: UploadState)
      returns (migrated': seq<G.GalleryImage>, kept': seq<nat>, ghost outcomes': seq<Option<Uploaded>>)
      requires Valid(host) && i == |outcomes| < |sources|
      requires ImageProgress(host, s0, sources, folder, now, UploadState(cache, attempts), migrated, kept, outcomes)
      modifies this
      ensures Valid(host) && |outcomes'| == |outcomes| + 1
      ensures ImageProgress(host, s0, sources, folder, now, UploadState(cache, attempts), migrated', kept', outcomes')
      ensures |migrated'| == |migrated| + (if outcomes'[|outcomes|].Some? then 1 else 0)
      ensures results == old(results).(galleryImages := Count(old(results).galleryImages, outcomes'[|outcomes|].Some?))
      ensures var u := UploadStep(host, UploadState(old(cache), old(attempts)), sources[i].path, folder);
              outcomes' == outcomes + [u.0] && UploadState(cache, attempts) == u.1
    {
      ghost var st := UploadState(cache, attempts);
      var r := UploadImage(host, sources[i].path, folder);
      if r.Some? {
        migrated', kept' := migrated + [ImageFrom(sources[i], r.value, now)], kept + [i];
      } else {
        migrated', kept' := migrated, kept;
      }
      outcomes' := outcomes + [r];
      results := results.(galleryImages := Count(results.galleryImages, r.Some?));
      ImageProgressStep(host, s0, sources, folder, now, st, migrated, kept, outcomes, r, UploadState(cache, attempts), migrated', kept');
    }

    /**
     * One step of `migrateGalleries`: the gallery is migrated and its
     * document created; a refused document counts as a failed gallery.
     */
    method CreateGallery(host: Host, g: SourceGallery, index: nat, store: G.GalleryCollection, docId: string, now: int)
      returns (ok: bool, doc: G.Gallery)
      requires Valid(host) && store.Valid()
      modifies this, store
      ensures Valid(host) && store.Valid()
      ensures doc.id == g.id && doc.name == g.name && doc.order == MigratedOrder(g.order, index) && doc.docId == docId
      ensures store.docs == if ok then old(store.docs) + [doc] else old(store.docs)
      ensures SameContentTallies(results, old(results)) && results.galleries == Count(old(results).galleries, ok)
    {
      var kept;
      ghost var outcomes;
      doc, kept, outcomes := MigrateGallery(host, g, index, docId, now);
      MigratedDocKeys(g, index, doc.images, docId, now);
      ok := SaveGallery(store, doc);
    }

    /** `Gallery.create` on the migrated document, counted as a migrated gallery or, when refused, a failed one. */
    method SaveGallery(store: G.GalleryCollection, doc: G.Gallery) returns (ok: bool)
      requires store.Valid()
      modifies this, store
      ensures store.Valid()
      ensures ok <==> G.Savable(doc) && forall k :: 0 <= k < |old(store.docs)| ==> old(store.docs)[k].id != doc.id
      ensures store.docs == if ok then old(store.docs) + [doc] else old(store.docs)
      ensures cache == old(cache) && attempts == old(attempts)
      ensures results == old(results).(galleries := Count(old(results).galleries, ok))
    {
      ok := store.Insert(doc);
      results := results.(galleries := Count(results.galleries, ok));
    }

    /**
     * `migrateGalleries`: without a file or without galleries nothing
     * changes; otherwise the collection is emptied and the galleries are
     * migrated in ascending order and created one by one, a refused
     * document counting as a failed gallery.
     */
    method MigrateGalleries(host: Host, input: Option<seq<SourceGallery>>, store: G.GalleryCollection, docIds: nat -> string, now: int)
      returns (sorted: seq<SourceGallery>, stored: seq<nat>)
      requires Valid(host) && store.Valid()
      modifies this, store
      ensures Valid(host) && store.Valid()
      ensures input.None? || |input.value| == 0 ==> store.docs == old(store.docs) && results == old(results) && sorted == [] && stored == []
      ensures input.Some? && |input.value| > 0 ==> sorted == SortByOrder(input.value)
      ensures input.Some? && |input.value| > 0 ==> |stored| == |store.docs| <= |sorted| && Ascending(stored, |sorted|)
      ensures SameContentTallies(results, old(results))
      ensures input.Some? && |input.value| > 0 ==>
        results.galleries == Tally(old(results).galleries.succeeded + |store.docs|, old(results).galleries.failed + |sorted| - |store.docs|)
      ensures input.Some? && |input.value| > 0 ==> StoredFrom(store.docs, stored, sorted, docIds)
    {
      if input.None? || |input.value| == 0 {
        return [], [];
      }
      sorted := SortByOrder(input.value);
      stored := CreateAll(host, sorted, store, docIds, now);
    }

    /** The body of `migrateGalleries` once there are galleries: the collection is emptied, then the loop over the sorted galleries. */
    method CreateAll(host: Host, sorted: seq<SourceGallery>, store: G.GalleryCollection, docIds: nat -> string, now: int)
      returns (stored: seq<nat>)
      requires Valid(host) && store.Valid()
      modifies this, store
      ensures Valid(host) && store.Valid()
      ensures |stored| == |store.docs| <= |sorted| && Ascending(stored, |sorted|)
      ensures SameContentTallies(results, old(results))
      ensures results.galleries == Tally(old(results).galleries.succeeded + |store.docs|, old(results).galleries.failed + |sorted| - |store.docs|)
      ensures StoredFrom(store.docs, stored, sorted, docIds)
    {
      store.DeleteAll();
      stored := [];
      var i := 0;
      while i < |sorted|
        invariant 0 <= i <= |sorted|
        invariant Valid(host) && store.Valid()
        invariant |stored| == |store.docs| <= i && Ascending(stored, i)
        invariant SameContentTallies(results, old(results))
        invariant results.galleries == Tally(old(results).galleries.succeeded + |store.docs|, old(results).galleries.failed + i - |store.docs|)
        invariant StoredFrom(store.docs, stored, sorted, docIds)
      {
        stored := CreateStep(host, sorted, store, docIds, now, i, stored);
        i := i + 1;
      }
    }

    /** One round of the loop in `CreateAll`: gallery `i` is created or counted as failed. */
    method CreateStep(host: Host, sorted: seq<SourceGallery>, store: G.GalleryCollection, docIds: nat -> string, now: int,
                      i: nat, stored: seq<nat>)
      returns (stored': seq<nat>)
      requires i < |sorted| && Valid(host) && store.Valid()
      requires |stored| == |store.docs| <= i && Ascending(stored, i) && StoredFrom(store.docs, stored, sorted, docIds)
      modifies this, store
      ensures Valid(host) && store.Valid()
      ensures |stored'| == |store.docs| <= i + 1 && Ascending(stored', i + 1) && StoredFrom(store.docs, stored', sorted, docIds)
      ensures SameContentTallies(results, old(results))
      ensures (|store.docs| == |old(store.docs)| + 1 && results.galleries == Count(old(results).galleries, true))
           || (|store.docs| == |old(store.docs)| && results.galleries == Count(old(results).galleries, false))
    {
      ghost var before := store.docs;
      var ok, doc := CreateGallery(host, sorted[i], i, store, docIds(i), now);
      AscendingStep(stored, i, ok);
      stored' := stored;
      if ok {
        StoredFromSnoc(before, stored, sorted, docIds, doc, i);
        stored' := stored + [i];
      }
    }
  }

  /** What the content file holds that the migration uploads, and the time of the run. */
  datatype SourceContent = SourceContent(
    logo: Option<map<string, string>>, heroImages: Option<seq<SourceHeroImage>>, aboutImage: Option<string>, now: int)

  /** The migrated logo, hero images and about image that go into the saved content. */
  datatype MigratedMedia = MigratedMedia(logo: map<string, string>, heroImages: seq<S.HeroImage>, image: string, imagePublicId: string)

  function HeroPaths(images: seq<SourceHeroImage>): (r: seq<string>)
    ensures |r| == |images| && forall j :: 0 <= j < |images| ==> r[j] == images[j].path
  {
    seq(|images|, j requires 0 <= j < |images| => images[j].path)
  }

  function SourcePaths(images: seq<SourceImage>): (r: seq<string>)
    ensures |r| == |images| && forall j :: 0 <= j < |images| ==> r[j] == images[j].path
  {
    seq(|images|, j requires 0 <= j < |images| => images[j].path)
  }

  function HeroIds(images: seq<SourceHeroImage>): (r: seq<string>)
    ensures |r| == |images| && forall j :: 0 <= j < |images| ==> r[j] == images[j].id
  {
    seq(|images|, j requires 0 <= j < |images| => images[j].id)
  }
}
