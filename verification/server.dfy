/**
 * The API handlers of server.js as transitions on the gallery collection
 * and the site-content document. Each handler reports the HTTP outcome and,
 * where it cascades to the image host, the public ids it asks the host to
 * destroy. Generated ids are built from the `now` parameter, which stands
 * for `Date.now()`; the ids of uploaded gallery images are given as
 * parameters.
 */
module Server {
  import opened Base
  import opened Text
  import opened GalleryModel
  import Cloudinary

  /** The response a handler sends. */
  datatype Status =
    | Ok
    | NotFound(error: string)
    | BadRequest(error: string)
    | Failed(error: string)
      /** An error escaped the upload callback, so the request is never answered. */
    | NoResponse

  /** What the upload middleware hands a multi-file handler. */
  datatype UploadedFile = UploadedFile(path: string, filename: string, originalName: string, size: int)

  datatype FilesUpload = Files(files: seq<UploadedFile>) | FilesRefused(message: string)

  /** What the upload middleware hands a single-file handler; `NoFile` when the form carried none. */
  datatype FileUpload = File(file: UploadedFile) | NoFile | FileRefused(message: string)

  // ---------------------------------------------------------------- galleries

  function GalleryId(now: nat): (id: string)
    ensures |id| > 8 && id[..8] == "gallery-"
  {
    "gallery-" + Decimal(now)
  }

  /**
   * `body.folder || body.name?.<slug> || galleryId`: a non-empty folder in
   * the body wins, then a non-empty slug of the name, then the generated id.
   */
  function FolderFor(body: GalleryFields, galleryId: string): (folder: string)
    ensures Truthy(body.folder) ==> folder == body.folder.value
    ensures galleryId != "" ==> folder != ""
    ensures !Truthy(body.folder) && body.name.Some? && Slug(body.name.value) != "" ==> folder == Slug(body.name.value)
    ensures !Truthy(body.folder) && (body.name.None? || Slug(body.name.value) == "") ==> folder == galleryId
    ensures !Truthy(body.folder) && folder != galleryId ==>
      body.name.Some? && folder == Slug(body.name.value)
      && forall i :: 0 <= i < |folder| ==> IsSlugChar(folder[i]) && !IsUpperAscii(folder[i])
  {
    if Truthy(body.folder) then body.folder.value
    else if body.name.Some? && Slug(body.name.value) != "" then Slug(body.name.value)
    else galleryId
  }

  /**
   * The document `create` builds: `{ id: galleryId, ...body, folder, images: [],
   * createdAt: now }` with the schema defaults. The server's `folder`,
   * `images` and `createdAt` win over the body; a body `id` wins over the
   * generated one.
   */
  function CreatedGallery(body: GalleryFields, docId: string, now: nat): (g: Gallery)
    ensures g.folder == Some(FolderFor(body, GalleryId(now))) && g.folder.value != ""
    ensures g.images == [] && g.createdAt == now
    ensures g.id == (if body.id.Some? then body.id.value else GalleryId(now))
    ensures Savable(g) <==> Truthy(body.name) && (body.id.None? || body.id.value != "")
    ensures g.isActive == (body.isActive != Some(false)) && g.isFeatured == (body.isFeatured == Some(true))
    ensures g.order == body.order.GetOr(0)
    ensures g.name == body.name.GetOr("") && g.category == body.category.GetOr("") && g.description == body.description.GetOr("")
    ensures g.coverImage == body.coverImage && g.coverImagePublicId == body.coverImagePublicId
  {
    var galleryId := GalleryId(now);
    NewGallery(docId, body.(id := Some(body.id.GetOr(galleryId)), folder := Some(FolderFor(body, galleryId))), [], now)
  }

  /** `POST /api/galleries`: validation or a taken id answers 500 and stores nothing. */
  method CreateGallery(c: GalleryCollection, body: GalleryFields, docId: string, now: nat) returns (status: Status)
    requires c.Valid()
    modifies c
    ensures c.Valid()
    ensures var g := CreatedGallery(body, docId, now);
      status == (if Savable(g) && forall k :: 0 <= k < |old(c.docs)| ==> old(c.docs)[k].id != g.id
                 then Ok else Failed("Failed to create gallery"))
    ensures c.docs == if status.Ok? then old(c.docs) + [CreatedGallery(body, docId, now)] else old(c.docs)
  {
    var ok := c.Insert(CreatedGallery(body, docId, now));
    status := if ok then Ok else Failed("Failed to create gallery");
  }

  /** `PUT /api/galleries/:id`: assigns the body's fields over the stored gallery. */
  method UpdateGallery(c: GalleryCollection, id: string, body: GalleryFields, now: int) returns (status: Status)
    requires c.Valid()
    modifies c
    ensures c.Valid()
    ensures var i := FindIndex(old(c.docs), g => HasId(g, id));
      if i == -1 then status == NotFound("Gallery not found") && c.docs == old(c.docs)
      else
        var g := Assign(old(c.docs)[i], body);
        (status == Ok <==> Savable(g) && forall k :: 0 <= k < |old(c.docs)| && k != i ==> old(c.docs)[k].id != g.id)
        && (status.Ok? || status == Failed("Failed to update gallery"))
        && c.docs == if status.Ok? then old(c.docs)[i := g.(updatedAt := now)] else old(c.docs)
  {
    var i := c.Find(id);
    if i == -1 {
      return NotFound("Gallery not found");
    }
    var ok := c.Replace(i, Assign(c.docs[i], body), now);
    status := if ok then Ok else Failed("Failed to update gallery");
  }

  /** `images.filter(img => img.publicId).map(img => img.publicId)`. */
  function ImagePublicIds(images: seq<GalleryImage>): (r: seq<string>)
    ensures |r| <= |images|
    ensures forall x :: x in r <==> exists k :: 0 <= k < |images| && images[k].publicId == Some(x) && x != ""
  {
    if |images| == 0 then []
    else
      var rest := ImagePublicIds(images[1..]);
      assert forall x :: (exists k :: 0 <= k < |images| - 1 && images[1..][k].publicId == Some(x) && x != "")
                     ==> exists k :: 0 <= k < |images| && images[k].publicId == Some(x) && x != "" by {
        forall x | exists k :: 0 <= k < |images| - 1 && images[1..][k].publicId == Some(x) && x != ""
          ensures exists k :: 0 <= k < |images| && images[k].publicId == Some(x) && x != ""
        {
          var k :| 0 <= k < |images| - 1 && images[1..][k].publicId == Some(x) && x != "";
          assert images[k + 1].publicId == Some(x);
        }
      }
      assert forall x :: (exists k :: 0 <= k < |images| && images[k].publicId == Some(x) && x != "")
                     ==> (images[0].publicId == Some(x) && x != "")
                         || exists k :: 0 <= k < |images| - 1 && images[1..][k].publicId == Some(x) && x != "" by {
        forall x | exists k :: 0 <= k < |images| && images[k].publicId == Some(x) && x != ""
          ensures (images[0].publicId == Some(x) && x != "")
                  || exists k :: 0 <= k < |images| - 1 && images[1..][k].publicId == Some(x) && x != ""
        {
          var k :| 0 <= k < |images| && images[k].publicId == Some(x) && x != "";
          if k > 0 {
            assert images[1..][k - 1].publicId == Some(x);
          }
        }
      }
      (if Truthy(images[0].publicId) then [images[0].publicId.value] else []) + rest
  }

  /** The host ids a gallery delete cascades to: every image's public id, then the cover's. */
  function CascadeIds(g: Gallery): (r: seq<string>)
    ensures |r| <= |g.images| + 1
    ensures forall x :: x in r <==>
      (exists k :: 0 <= k < |g.images| && g.images[k].publicId == Some(x) && x != "")
      || (g.coverImagePublicId == Some(x) && x != "")
    ensures forall x :: x in r ==> x != ""
  {
    ImagePublicIds(g.images) + (if Truthy(g.coverImagePublicId) then [g.coverImagePublicId.value] else [])
  }

  /**
   * `DELETE /api/galleries/:id`: the host is asked to destroy the gallery's
   * ids only when there are any; then the gallery alone is removed. A failed
   * host call does not stop the removal.
   */
  method DeleteGallery(c: GalleryCollection, id: string) returns (status: Status, destroyed: seq<string>)
    requires c.Valid()
    modifies c
    ensures c.Valid()
    ensures var i := FindIndex(old(c.docs), g => HasId(g, id));
      if i == -1 then status == NotFound("Gallery not found") && destroyed == [] && c.docs == old(c.docs)
      else status == Ok && destroyed == CascadeIds(old(c.docs)[i]) && c.docs == RemoveAt(old(c.docs), i)
    ensures forall g :: g in c.docs <==> g in old(c.docs) && g.id != id
    ensures Cloudinary.DeleteImages(Some(destroyed), None).remoteCalled <==> destroyed != []
  {
    var i := c.Find(id);
    if i == -1 {
      return NotFound("Gallery not found"), [];
    }
    destroyed := CascadeIds(c.docs[i]);
    ghost var before := c.docs;
    c.Remove(i);
    status := Ok;
    forall g ensures g in c.docs <==> g in before && g.id != id {
      if g in before && g.id != id {
        var k :| 0 <= k < |before| && before[k] == g;
        assert k != i;
        if k < i { assert c.docs[k] == g; } else { assert c.docs[k - 1] == g; }
      }
      if g in c.docs {
        var k :| 0 <= k < |c.docs| && c.docs[k] == g;
        if k < i { assert before[k] == g; } else { assert before[k + 1] == g; }
      }
    }
  }

  /** The last position of `id` in `order`, or -1. */
  function LastIndex(order: seq<string>, id: string): (k: int)
    ensures -1 <= k < |order|
    ensures k == -1 <==> id !in order
    ensures k >= 0 ==> order[k] == id && forall j :: k < j < |order| ==> order[j] != id
  {
    if |order| == 0 then -1
    else if order[|order| - 1] == id then |order| - 1
    else LastIndex(order[..|order| - 1], id)
  }

  /**
   * A gallery after the reorder loop: listed ids get the position of their
   * last listing as `order`, unlisted galleries are untouched.
   */
  function Reordered(g: Gallery, order: seq<string>, now: int): (r: Gallery)
    ensures g.id !in order ==> r == g
    ensures forall i :: 0 <= i < |order| && order[i] == g.id && (forall j :: 0 <= j < |order| && j != i ==> order[j] != g.id)
              ==> r.order == i
    ensures g.id in order ==>
      0 <= r.order < |order| && order[r.order] == g.id && forall j :: r.order < j < |order| ==> order[j] != g.id
    ensures r.(order := g.order, updatedAt := g.updatedAt) == g
  {
    var k := LastIndex(order, g.id);
    if k >= 0 then g.(order := k, updatedAt := now) else g
  }

  /** One more round of the loop sets the order of the gallery listed last. */
  lemma ReorderedStep(g: Gallery, order: seq<string>, i: nat, now: int)
    requires i < |order|
    ensures Reordered(g, order[..i + 1], now)
         == if order[i] == g.id then Reordered(g, order[..i], now).(order := i, updatedAt := now)
            else Reordered(g, order[..i], now)
  {
    assert order[..i + 1][..i] == order[..i];
  }

  /** `PUT /api/galleries-order`: a missing `order` fails before any update. */
  method ReorderGalleries(c: GalleryCollection, order: Option<seq<string>>, now: int) returns (status: Status)
    requires c.Valid()
    modifies c
    ensures c.Valid()
    ensures order.None? ==> status == Failed("Failed to reorder galleries") && c.docs == old(c.docs)
    ensures order.Some? ==> (status == Ok && |c.docs| == |old(c.docs)|
      && forall k :: 0 <= k < |c.docs| ==> c.docs[k] == Reordered(old(c.docs)[k], order.value, now))
  {
    if order.None? {
      return Failed("Failed to reorder galleries");
    }
    var ids := order.value;
    var i := 0;
    while i < |ids|
      invariant 0 <= i <= |ids|
      invariant c.Valid() && |c.docs| == |old(c.docs)|
      invariant forall k :: 0 <= k < |c.docs| ==> c.docs[k] == Reordered(old(c.docs)[k], ids[..i], now)
    {
      ghost var before := c.docs;
      c.SetOrder(ids[i], i, now);
      forall k | 0 <= k < |c.docs|
        ensures c.docs[k] == Reordered(old(c.docs)[k], ids[..i + 1], now)
      {
        ReorderedStep(old(c.docs)[k], ids, i, now);
      }
      i := i + 1;
    }
    assert ids[..i] == ids;
    status := Ok;
  }

  /** The documents `req.files` becomes: ids from `ids`, host path and public id from the file. */
  function NewImages(files: seq<UploadedFile>, ids: seq<string>, now: int): (r: seq<GalleryImage>)
    requires |ids| == |files|
    ensures |r| == |files|
    ensures forall k :: 0 <= k < |files| ==>
      r[k].id == ids[k] && r[k].path == files[k].path && r[k].publicId == Some(files[k].filename)
      && r[k].originalName == Some(files[k].originalName) && r[k].uploadedAt == now
      && r[k].filename == Some(files[k].originalName) && r[k].size == Some(files[k].size)
  {
    seq(|files|, k requires 0 <= k < |files| =>
      GalleryImage(ids[k], Some(files[k].originalName), files[k].path, Some(files[k].filename),
                   Some(files[k].originalName), Some(files[k].size), now))
  }

  /**
   * `POST /api/galleries/:id/images`: the new images are appended after the
   * existing ones. A refused upload answers 400; a save that fails inside
   * the upload callback leaves the request unanswered.
   */
  method UploadGalleryImages(c: GalleryCollection, id: string, upload: FilesUpload, ids: seq<string>, now: int)
    returns (status: Status)
    requires c.Valid()
    requires upload.Files? ==> |ids| == |upload.files|
    modifies c
    ensures c.Valid()
    ensures var i := FindIndex(old(c.docs), g => HasId(g, id));
      if i == -1 then status == NotFound("Gallery not found") && c.docs == old(c.docs)
      else if upload.FilesRefused? then status == BadRequest(upload.message) && c.docs == old(c.docs)
      else
        var g := old(c.docs)[i];
        var added := NewImages(upload.files, ids, now);
        (status.Ok? || status == NoResponse)
        && (status.Ok? <==> forall k :: 0 <= k < |added| ==> added[k].id != "" && added[k].path != "")
        && c.docs == if status.Ok? then old(c.docs)[i := g.(images := g.images + added, updatedAt := now)] else old(c.docs)
  {
    var i := c.Find(id);
    if i == -1 {
      return NotFound("Gallery not found");
    }
    if upload.FilesRefused? {
      return BadRequest(upload.message);
    }
    var g := c.docs[i];
    var added := NewImages(upload.files, ids, now);
    var g2 := g.(images := g.images + added);
    AppendSavable(g, added);
    var ok := c.Replace(i, g2, now);
    status := if ok then Ok else NoResponse;
  }

  /** Appending images to a valid gallery keeps it valid exactly when the new images are. */
  lemma AppendSavable(g: Gallery, added: seq<GalleryImage>)
    requires Savable(g)
    ensures Savable(g.(images := g.images + added)) <==> forall k :: 0 <= k < |added| ==> added[k].id != "" && added[k].path != ""
  {
    var g2 := g.(images := g.images + added);
    assert forall k :: 0 <= k < |added| ==> g2.images[|g.images| + k] == added[k];
  }

  predicate ImageHasId(img: GalleryImage, id: string) { img.id == id }

  /** `images.find(img => img.id === id)`, as a position: the first image with that id, or -1. */
  function FindImage(images: seq<GalleryImage>, id: string): (j: int)
    ensures -1 <= j < |images|
    ensures j == -1 <==> forall k :: 0 <= k < |images| ==> images[k].id != id
    ensures j >= 0 ==> images[j].id == id && forall k :: 0 <= k < j ==> images[k].id != id
  {
    if |images| == 0 then -1
    else if images[0].id == id then 0
    else
      var j := FindImage(images[1..], id);
      assert forall k :: 1 <= k < |images| ==> images[k] == images[1..][k - 1];
      if j == -1 then -1 else j + 1
  }

  /**
   * `DELETE /api/galleries/:galleryId/images/:imageId`: the first image with
   * that id is destroyed on the host when it has a public id; every image
   * with that id leaves the gallery, the others keep their order.
   */
  method DeleteGalleryImage(c: GalleryCollection, galleryId: string, imageId: string, now: int)
    returns (status: Status, destroyed: seq<string>)
    requires c.Valid()
    modifies c
    ensures c.Valid()
    ensures var i := FindIndex(old(c.docs), g => HasId(g, galleryId));
      if i == -1 then status == NotFound("Gallery not found") && destroyed == [] && c.docs == old(c.docs)
      else
        var g := old(c.docs)[i];
        var j := FindImage(g.images, imageId);
        if j == -1 then status == NotFound("Image not found") && destroyed == [] && c.docs == old(c.docs)
        else
          status == Ok
          && destroyed == (if Truthy(g.images[j].publicId) then [g.images[j].publicId.value] else [])
          && c.docs == old(c.docs)[i := g.(images := Filter(g.images, img => !ImageHasId(img, imageId)), updatedAt := now)]
  {
    var i := c.Find(galleryId);
    if i == -1 {
      return NotFound("Gallery not found"), [];
    }
    var g := c.docs[i];
    var j := FindImage(g.images, imageId);
    if j == -1 {
      return NotFound("Image not found"), [];
    }
    destroyed := if Truthy(g.images[j].publicId) then [g.images[j].publicId.value] else [];
    var kept := Filter(g.images, img => !ImageHasId(img, imageId));
    assert forall k :: 0 <= k < |kept| ==> kept[k] in g.images;
    KeptImagesSavable(g, kept);
    assert forall k :: 0 <= k < |c.docs| && k != i ==> c.docs[k].id != g.id;
    var ok := c.Replace(i, g.(images := kept), now);
    assert ok;
    status := Ok;
  }

  /** Keeping only some of a valid gallery's images keeps it valid. */
  lemma KeptImagesSavable(g: Gallery, kept: seq<GalleryImage>)
    requires Savable(g)
    requires forall k :: 0 <= k < |kept| ==> kept[k] in g.images
    ensures Savable(g.(images := kept))
  {
  }

  /**
   * Dropping the images with one id removes exactly those: every image that
   * leaves carries the id, every image that stays does not.
   */
  lemma DeleteImageRemovesOnlyThatId(images: seq<GalleryImage>, imageId: string)
    ensures var kept := Filter(images, img => !ImageHasId(img, imageId));
      (forall x :: x in kept <==> x in images && x.id != imageId)
      && forall x :: x in multiset(images) - multiset(kept) ==> x.id == imageId
  {
    FilterDropsOnlyFailing(images, img => !ImageHasId(img, imageId));
  }

  /**
   * `order.map(id => images.find(img => img.id === id)).filter(Boolean)`:
   * for each listed id in turn, the first image carrying it; unknown ids
   * are dropped.
   */
  function ReorderImages(images: seq<GalleryImage>, order: seq<string>): (r: seq<GalleryImage>)
    ensures |r| <= |order|
    ensures forall k :: 0 <= k < |r| ==> r[k] in images && r[k].id in order
  {
    if |order| == 0 then []
    else
      var j := FindImage(images, order[0]);
      var rest := ReorderImages(images, order[1..]);
      assert forall k :: 0 <= k < |rest| ==> rest[k].id in order by {
        assert forall x :: x in order[1..] ==> x in order;
      }
      (if j >= 0 then [images[j]] else []) + rest
  }

  /** The listed ids that some image carries, in the order of the list (`filter` on `FindImage`). */
  function FoundIds(images: seq<GalleryImage>, order: seq<string>): (r: seq<string>)
    ensures |r| <= |order|
    ensures forall k :: 0 <= k < |r| ==> FindImage(images, r[k]) >= 0 && r[k] in order
  {
    if |order| == 0 then []
    else (if FindImage(images, order[0]) >= 0 then [order[0]] else []) + FoundIds(images, order[1..])
  }

  /**
   * Unknown ids are dropped and every known one, in turn, brings the first
   * image that carries it: the result is the image of each found id, in
   * the order of the list.
   */
  lemma {:induction false} ReorderFollowsFoundIds(images: seq<GalleryImage>, order: seq<string>)
    ensures var found := FoundIds(images, order);
      var r := ReorderImages(images, order);
      |r| == |found| && forall k :: 0 <= k < |r| ==> r[k] == images[FindImage(images, found[k])]
  {
    if |order| > 0 {
      ReorderFollowsFoundIds(images, order[1..]);
      var j := FindImage(images, order[0]);
      var rest := ReorderImages(images, order[1..]);
      var tail := FoundIds(images, order[1..]);
      var found := FoundIds(images, order);
      var r := ReorderImages(images, order);
      assert r == (if j >= 0 then [images[j]] else []) + rest;
      assert found == (if j >= 0 then [order[0]] else []) + tail;
      if j >= 0 {
        forall k | 1 <= k < |r|
          ensures r[k] == images[FindImage(images, found[k])]
        {
          assert r[k] == rest[k - 1] && found[k] == tail[k - 1];
        }
      }
    }
  }

  /** The found ids are exactly the listed ids that some image carries. */
  lemma {:induction false} FoundIdsFilter(images: seq<GalleryImage>, order: seq<string>)
    ensures forall x :: x in FoundIds(images, order) <==> x in order && FindImage(images, x) >= 0
  {
    if |order| > 0 {
      FoundIdsFilter(images, order[1..]);
      assert order == [order[0]] + order[1..];
    }
  }

  /** Every listed id names some image (`FindImage` finds it). */
  predicate KnownIds(images: seq<GalleryImage>, order: seq<string>) {
    forall k :: 0 <= k < |order| ==> FindImage(images, order[k]) >= 0
  }

  /** When every listed id is known, the result lists exactly those ids, in that order. */
  lemma {:induction false} ReorderKnownIds(images: seq<GalleryImage>, order: seq<string>)
    requires KnownIds(images, order)
    ensures var r := ReorderImages(images, order);
      |r| == |order| && forall k :: 0 <= k < |order| ==> r[k].id == order[k]
  {
    if |order| > 0 {
      KnownIdsTail(images, order);
      ReorderKnownIds(images, order[1..]);
      var j := FindImage(images, order[0]);
      assert j >= 0;
      var rest := ReorderImages(images, order[1..]);
      var r := [images[j]] + rest;
      assert ReorderImages(images, order) == r;
      forall k | 1 <= k < |order| ensures r[k].id == order[k] {
        assert r[k] == rest[k - 1] && order[1..][k - 1] == order[k];
      }
    }
  }

  lemma KnownIdsTail(images: seq<GalleryImage>, order: seq<string>)
    requires |order| > 0 && KnownIds(images, order)
    ensures KnownIds(images, order[1..])
  {
    forall k | 0 <= k < |order| - 1 ensures FindImage(images, order[1..][k]) >= 0 {
      assert order[1..][k] == order[k + 1];
    }
  }

  predicate DistinctIds(images: seq<GalleryImage>) {
    forall i, j :: 0 <= i < j < |images| ==> images[i].id != images[j].id
  }

  /**
   * When the images have distinct ids and `order` lists each of them once,
   * the reorder is a rearrangement: the same images, none lost, none added.
   */
  lemma ReorderPermutes(images: seq<GalleryImage>, order: seq<string>)
    requires DistinctIds(images)
    requires |order| == |images|
    requires forall j :: 0 <= j < |images| ==> images[j].id in order
    requires KnownIds(images, order)
    ensures var r := ReorderImages(images, order);
      |r| == |images| && forall x :: x in r <==> x in images
  {
    var r := ReorderImages(images, order);
    ReorderKnownIds(images, order);
    forall x | x in images ensures x in r {
      var k :| 0 <= k < |order| && order[k] == x.id;
      assert r[k] in images && r[k].id == x.id;
      var a :| 0 <= a < |images| && images[a] == r[k];
      var b :| 0 <= b < |images| && images[b] == x;
      assert a == b;
    }
  }

  /** `PUT /api/galleries/:id/images-order`: a missing `order` fails after the lookup. */
  method ReorderGalleryImages(c: GalleryCollection, id: string, order: Option<seq<string>>, now: int)
    returns (status: Status)
    requires c.Valid()
    modifies c
    ensures c.Valid()
    ensures var i := FindIndex(old(c.docs), g => HasId(g, id));
      if i == -1 then status == NotFound("Gallery not found") && c.docs == old(c.docs)
      else if order.None? then status == Failed("Failed to reorder images") && c.docs == old(c.docs)
      else
        var g := old(c.docs)[i];
        status == Ok && c.docs == old(c.docs)[i := g.(images := ReorderImages(g.images, order.value), updatedAt := now)]
  {
    var i := c.Find(id);
    if i == -1 {
      return NotFound("Gallery not found");
    }
    if order.None? {
      return Failed("Failed to reorder images");
    }
    var g := c.docs[i];
    var ok := c.Replace(i, g.(images := ReorderImages(g.images, order.value)), now);
    assert ok;
    status := Ok;
  }
}
