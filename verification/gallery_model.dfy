/**
 * The gallery document (models/Gallery.js): its schema and defaults, the
 * collection with its unique `id` index, the public projection and the
 * listing order used by the public site.
 */
module GalleryModel {
  import opened Base

  /** One stored image of a gallery. */
  datatype GalleryImage = GalleryImage(
    id: string,
    filename: Option<string>,
    path: string,
    publicId: Option<string>,
    originalName: Option<string>,
    size: Option<int>,
    uploadedAt: int)

  /** A stored gallery document, with the database's own `_id` and `__v`. */
  datatype Gallery = Gallery(
    docId: string,
    version: int,
    id: string,
    name: string,
    category: string,
    description: string,
    folder: Option<string>,
    isActive: bool,
    isFeatured: bool,
    order: int,
    coverImage: Option<string>,
    coverImagePublicId: Option<string>,
    images: seq<GalleryImage>,
    createdAt: int,
    updatedAt: int)

  /** An image as the public site sees it: everything but the host's `publicId`. */
  datatype FrontImage = FrontImage(
    id: string,
    filename: Option<string>,
    path: string,
    originalName: Option<string>,
    size: Option<int>,
    uploadedAt: int)

  /** A gallery as the public site sees it. */
  datatype FrontGallery = FrontGallery(
    id: string,
    name: string,
    category: string,
    description: string,
    folder: Option<string>,
    isActive: bool,
    isFeatured: bool,
    order: int,
    coverImage: Option<string>,
    images: seq<FrontImage>,
    createdAt: int)

  /**
   * The fields a request body may carry for a gallery. Absent fields are
   * `None`; on creation they take the schema defaults.
   */
  datatype GalleryFields = GalleryFields(
    id: Option<string>,
    name: Option<string>,
    category: Option<string>,
    description: Option<string>,
    folder: Option<string>,
    isActive: Option<bool>,
    isFeatured: Option<bool>,
    order: Option<int>,
    coverImage: Option<string>,
    coverImagePublicId: Option<string>)

  /** Schema validation: `id`, `name` and each image's `id` and `path` are required (non-empty). */
  predicate Savable(g: Gallery) {
    g.id != "" && g.name != ""
    && forall k :: 0 <= k < |g.images| ==> g.images[k].id != "" && g.images[k].path != ""
  }

  /**
   * A new document built from request fields: the given values where present,
   * otherwise `category = ''`, `description = ''`, `isActive = true`,
   * `isFeatured = false`, `order = 0`. A missing `id` or `name` is left
   * empty, which `Savable` then refuses.
   */
  function NewGallery(docId: string, f: GalleryFields, images: seq<GalleryImage>, now: int): (g: Gallery)
    ensures g.docId == docId && g.version == 0 && g.images == images
    ensures g.createdAt == now && g.updatedAt == now
    ensures g.category == f.category.GetOr("") && g.description == f.description.GetOr("")
    ensures g.isActive == (f.isActive != Some(false)) && g.isFeatured == (f.isFeatured == Some(true))
    ensures g.order == f.order.GetOr(0)
    ensures g.id == f.id.GetOr("") && g.name == f.name.GetOr("") && g.folder == f.folder
    ensures g.coverImage == f.coverImage && g.coverImagePublicId == f.coverImagePublicId
    ensures Savable(g) ==> f.id.Some? && f.name.Some?
  {
    Gallery(docId, 0, f.id.GetOr(""), f.name.GetOr(""), f.category.GetOr(""), f.description.GetOr(""),
            f.folder, f.isActive.GetOr(true), f.isFeatured.GetOr(false), f.order.GetOr(0),
            f.coverImage, f.coverImagePublicId, images, now, now)
  }

  /** `Object.assign(gallery, body)`: every field the body carries overrides the stored one. */
  function Assign(g: Gallery, f: GalleryFields): (r: Gallery)
    ensures r.docId == g.docId && r.version == g.version && r.images == g.images
    ensures r.createdAt == g.createdAt && r.updatedAt == g.updatedAt
    ensures r.id == (if f.id.Some? then f.id.value else g.id)
    ensures r.name == (if f.name.Some? then f.name.value else g.name)
    ensures r.category == (if f.category.Some? then f.category.value else g.category)
    ensures r.description == (if f.description.Some? then f.description.value else g.description)
    ensures r.folder == (if f.folder.Some? then f.folder else g.folder)
    ensures r.isActive == (if f.isActive.Some? then f.isActive.value else g.isActive)
    ensures r.isFeatured == (if f.isFeatured.Some? then f.isFeatured.value else g.isFeatured)
    ensures r.order == (if f.order.Some? then f.order.value else g.order)
    ensures r.coverImage == (if f.coverImage.Some? then f.coverImage else g.coverImage)
    ensures r.coverImagePublicId == (if f.coverImagePublicId.Some? then f.coverImagePublicId else g.coverImagePublicId)
  {
    g.(id := f.id.GetOr(g.id), name := f.name.GetOr(g.name),
       category := f.category.GetOr(g.category), description := f.description.GetOr(g.description),
       folder := if f.folder.Some? then f.folder else g.folder,
       isActive := f.isActive.GetOr(g.isActive), isFeatured := f.isFeatured.GetOr(g.isFeatured),
       order := f.order.GetOr(g.order),
       coverImage := if f.coverImage.Some? then f.coverImage else g.coverImage,
       coverImagePublicId := if f.coverImagePublicId.Some? then f.coverImagePublicId else g.coverImagePublicId)
  }

  /** Assigning a body with no fields leaves the document as it was. */
  lemma AssignNothing(g: Gallery)
    ensures Assign(g, GalleryFields(None, None, None, None, None, None, None, None, None, None)) == g
  {
  }

  /** Assigning the same body twice is the same as assigning it once. */
  lemma AssignIdempotent(g: Gallery, f: GalleryFields)
    ensures Assign(Assign(g, f), f) == Assign(g, f)
  {
  }

  function ImageToFront(img: GalleryImage): FrontImage {
    FrontImage(img.id, img.filename, img.path, img.originalName, img.size, img.uploadedAt)
  }

  /**
   * `toFrontendJSON`: drops `_id`, `__v`, `updatedAt` and `coverImagePublicId`,
   * keeps `createdAt` and `coverImage`, and maps each image to its public
   * fields, same length and order.
   */
  function ToFrontendJSON(g: Gallery): (f: FrontGallery)
    ensures f.id == g.id && f.name == g.name && f.order == g.order && f.createdAt == g.createdAt
    ensures f.coverImage == g.coverImage && f.isActive == g.isActive && f.isFeatured == g.isFeatured
    ensures f.category == g.category && f.description == g.description && f.folder == g.folder
    ensures |f.images| == |g.images|
    ensures forall k :: 0 <= k < |g.images| ==>
      var a, b := f.images[k], g.images[k];
      a.id == b.id && a.path == b.path && a.filename == b.filename
      && a.originalName == b.originalName && a.size == b.size && a.uploadedAt == b.uploadedAt
  {
    FrontGallery(g.id, g.name, g.category, g.description, g.folder, g.isActive, g.isFeatured,
                 g.order, g.coverImage, seq(|g.images|, k requires 0 <= k < |g.images| => ImageToFront(g.images[k])),
                 g.createdAt)
  }

  /** Two images that differ only in what the projection drops. */
  predicate SameButPublicId(a: GalleryImage, b: GalleryImage) {
    a.(publicId := None) == b.(publicId := None)
  }

  /**
   * The projection reveals nothing private: documents that differ only in
   * `_id`, `__v`, `updatedAt`, `coverImagePublicId` and their images'
   * `publicId` project to the same value.
   */
  lemma ProjectionHidesPrivateFields(g: Gallery, h: Gallery)
    requires |g.images| == |h.images|
    requires forall k :: 0 <= k < |g.images| ==> SameButPublicId(g.images[k], h.images[k])
    requires g.(docId := "", version := 0, updatedAt := 0, coverImagePublicId := None, images := [])
          == h.(docId := "", version := 0, updatedAt := 0, coverImagePublicId := None, images := [])
    ensures ToFrontendJSON(g) == ToFrontendJSON(h)
  {
    var fg, fh := ToFrontendJSON(g), ToFrontendJSON(h);
    forall k | 0 <= k < |g.images|
      ensures fg.images[k] == fh.images[k]
    {
      assert g.images[k].(publicId := None) == h.images[k].(publicId := None);
      assert g.images[k].id == h.images[k].id;
    }
    assert g.name == h.name;
  }

  /** The listing order `sort({ order: 1, createdAt: 1 })`. */
  predicate Before(a: Gallery, b: Gallery) {
    a.order < b.order || (a.order == b.order && a.createdAt <= b.createdAt)
  }

  predicate Sorted(s: seq<Gallery>) {
    forall i, j :: 0 <= i < j < |s| ==> Before(s[i], s[j])
  }

  /** Places `g` before the first element it does not follow. */
  function Insert(g: Gallery, s: seq<Gallery>): (r: seq<Gallery>)
    requires Sorted(s)
    ensures Sorted(r)
    ensures multiset(r) == multiset(s) + multiset{g}
    ensures |r| == |s| + 1
    decreases |s|, 2
  {
    if |s| == 0 then [g]
    else if Before(g, s[0]) then [g] + s
    else
      var rest := Insert(g, s[1..]);
      assert s == [s[0]] + s[1..];
      InsertAfterHead(g, s);
      [s[0]] + rest
  }

  /** When `g` goes after the head, everything inserted into the tail still follows the head. */
  lemma InsertAfterHead(g: Gallery, s: seq<Gallery>)
    requires Sorted(s) && |s| > 0 && !Before(g, s[0])
    ensures Sorted(s[1..])
    ensures forall k :: 0 <= k < |Insert(g, s[1..])| ==> Before(s[0], Insert(g, s[1..])[k])
    decreases |s|, 1
  {
    var rest := Insert(g, s[1..]);
    forall k | 0 <= k < |rest|
      ensures Before(s[0], rest[k])
    {
      assert rest[k] in multiset(rest);
      if rest[k] != g {
        assert rest[k] in multiset(s[1..]);
        var m :| 0 <= m < |s[1..]| && s[1..][m] == rest[k];
        assert s[m + 1] == rest[k];
      }
    }
  }

  /** An insertion sort on the listing order. */
  function SortGalleries(s: seq<Gallery>): (r: seq<Gallery>)
    ensures Sorted(r)
    ensures multiset(r) == multiset(s)
    ensures |r| == |s|
  {
    if |s| == 0 then []
    else
      assert s == [s[0]] + s[1..];
      Insert(s[0], SortGalleries(s[1..]))
  }

  /**
   * `getAllForFrontend`: every stored gallery, projected, listed by
   * ascending `order` and then ascending `createdAt`.
   */
  function GetAllForFrontend(docs: seq<Gallery>): (r: seq<FrontGallery>)
    ensures |r| == |docs|
    ensures forall i, j :: 0 <= i < j < |r| ==>
      r[i].order < r[j].order || (r[i].order == r[j].order && r[i].createdAt <= r[j].createdAt)
    ensures forall g :: g in docs ==> ToFrontendJSON(g) in r
    ensures forall f :: f in r ==> exists g :: g in docs && ToFrontendJSON(g) == f
    ensures multiset(r) == multiset(ProjectAll(docs))
  {
    var sorted := SortGalleries(docs);
    ProjectAllCovers(docs, sorted);
    ProjectAllPermutes(sorted, docs);
    ProjectAll(sorted)
  }

  /** Each gallery projected, position by position. */
  function ProjectAll(s: seq<Gallery>): (r: seq<FrontGallery>)
    ensures |r| == |s| && forall k :: 0 <= k < |s| ==> r[k] == ToFrontendJSON(s[k])
  {
    seq(|s|, k requires 0 <= k < |s| => ToFrontendJSON(s[k]))
  }

  /** Projection distributes over concatenation. */
  lemma ProjectAllAppend(u: seq<Gallery>, v: seq<Gallery>)
    ensures ProjectAll(u + v) == ProjectAll(u) + ProjectAll(v)
  {
    assert forall k :: 0 <= k < |u + v| ==> ProjectAll(u + v)[k] == (ProjectAll(u) + ProjectAll(v))[k];
  }

  /** Taking out position `k` takes one copy of `s[k]` out of the multiset. */
  lemma MultisetWithout<T>(s: seq<T>, k: nat)
    requires k < |s|
    ensures multiset(s) == multiset(s[..k] + s[k + 1..]) + multiset{s[k]}
  {
    assert s == s[..k] + [s[k]] + s[k + 1..];
  }

  lemma MultisetCancel<T>(a: multiset<T>, b: multiset<T>, x: T)
    requires a + multiset{x} == b + multiset{x}
    ensures a == b
  {
    forall y ensures a[y] == b[y] {
      assert (a + multiset{x})[y] == (b + multiset{x})[y];
    }
  }

  /** Projecting commutes with taking out position `k`. */
  lemma ProjectRemoveAt(s: seq<Gallery>, k: nat)
    requires k < |s|
    ensures multiset(ProjectAll(s)) == multiset(ProjectAll(s[..k] + s[k + 1..])) + multiset{ToFrontendJSON(s[k])}
  {
    var p := ProjectAll(s);
    MultisetWithout(p, k);
    ProjectAllAppend(s[..k], s[k + 1..]);
    assert p[..k] == ProjectAll(s[..k]);
    assert p[k + 1..] == ProjectAll(s[k + 1..]);
  }

  /** Projecting two rearrangements of one list gives rearrangements of one projected list: each gallery once. */
  lemma {:induction false} ProjectAllPermutes(a: seq<Gallery>, b: seq<Gallery>)
    requires multiset(a) == multiset(b)
    ensures multiset(ProjectAll(a)) == multiset(ProjectAll(b))
    decreases |a|
  {
    if |a| == 0 {
      assert |b| == 0;
    } else {
      var x := a[0];
      assert x in multiset(b);
      var k :| 0 <= k < |b| && b[k] == x;
      var rest := b[..k] + b[k + 1..];
      assert a == [x] + a[1..];
      MultisetWithout(b, k);
      MultisetCancel(multiset(a[1..]), multiset(rest), x);
      ProjectAllPermutes(a[1..], rest);
      ProjectAllAppend([x], a[1..]);
      assert ProjectAll([x]) == [ToFrontendJSON(x)];
      ProjectRemoveAt(b, k);
    }
  }

  /** Projecting a rearrangement of `docs` projects exactly the galleries of `docs`. */
  lemma ProjectAllCovers(docs: seq<Gallery>, sorted: seq<Gallery>)
    requires multiset(docs) == multiset(sorted)
    ensures forall g :: g in docs ==> ToFrontendJSON(g) in ProjectAll(sorted)
    ensures forall f :: f in ProjectAll(sorted) ==> exists g :: g in docs && ToFrontendJSON(g) == f
  {
    var r := ProjectAll(sorted);
    forall g | g in docs ensures ToFrontendJSON(g) in r {
      assert g in multiset(sorted);
      var k :| 0 <= k < |sorted| && sorted[k] == g;
      assert r[k] == ToFrontendJSON(g);
    }
    forall f | f in r ensures exists g :: g in docs && ToFrontendJSON(g) == f {
      var k :| 0 <= k < |r| && r[k] == f;
      assert sorted[k] in multiset(docs);
    }
  }

  /** No two stored galleries share an `id` (the unique index). */
  predicate UniqueIds(docs: seq<Gallery>) {
    forall i, j :: 0 <= i < j < |docs| ==> docs[i].id != docs[j].id
  }

  predicate HasId(g: Gallery, id: string) { g.id == id }

  /** The `galleries` collection. */
  class GalleryCollection {
    var docs: seq<Gallery>

    ghost predicate Valid()
      reads this
    {
      UniqueIds(docs) && forall k :: 0 <= k < |docs| ==> Savable(docs[k])
    }

    constructor ()
      ensures Valid() && docs == []
    {
      docs := [];
    }

    /** `findOne({ id })`: the position of the gallery with this id, or -1. */
    function Find(id: string): (i: int)
      reads this
      ensures -1 <= i < |docs|
      ensures i == -1 <==> forall k :: 0 <= k < |docs| ==> docs[k].id != id
      ensures i >= 0 ==> docs[i].id == id
    {
      FindIndex(docs, g => HasId(g, id))
    }

    /** `save()` of a new document: refused when invalid or when its id is taken. */
    method Insert(g: Gallery) returns (ok: bool)
      requires Valid()
      modifies this
      ensures Valid()
      ensures ok <==> Savable(g) && forall k :: 0 <= k < |old(docs)| ==> old(docs)[k].id != g.id
      ensures docs == if ok then old(docs) + [g] else old(docs)
    {
      ok := Savable(g) && Find(g.id) == -1;
      if ok {
        docs := docs + [g];
      }
    }

    /** `save()` of a loaded document at position `i`, bumping `updatedAt`. */
    method Replace(i: nat, g: Gallery, now: int) returns (ok: bool)
      requires Valid() && i < |docs|
      modifies this
      ensures Valid()
      ensures ok <==> Savable(g) && forall k :: 0 <= k < |old(docs)| && k != i ==> old(docs)[k].id != g.id
      ensures docs == if ok then old(docs)[i := g.(updatedAt := now)] else old(docs)
    {
      ok := Savable(g);
      var k := 0;
      while k < |docs| && ok
        invariant 0 <= k <= |docs|
        invariant ok <==> Savable(g) && forall m :: 0 <= m < k && m != i ==> docs[m].id != g.id
      {
        if k != i && docs[k].id == g.id {
          ok := false;
        }
        k := k + 1;
      }
      if ok {
        docs := docs[i := g.(updatedAt := now)];
      }
    }

    /** `deleteMany({})`: the collection is emptied. */
    method DeleteAll()
      modifies this
      ensures Valid() && docs == []
    {
      docs := [];
    }

    /** `deleteOne({ id })` on the gallery at position `i`. */
    method Remove(i: nat)
      requires Valid() && i < |docs|
      modifies this
      ensures Valid()
      ensures docs == RemoveAt(old(docs), i)
    {
      docs := RemoveAt(docs, i);
    }

    /** `updateOne({ id }, { order })`: sets the order of the gallery with that id, if any. */
    method SetOrder(id: string, order: int, now: int)
      requires Valid()
      modifies this
      ensures Valid()
      ensures |docs| == |old(docs)|
      ensures forall k :: 0 <= k < |docs| ==>
        docs[k] == if old(docs)[k].id == id then old(docs)[k].(order := order, updatedAt := now) else old(docs)[k]
    {
      var i := Find(id);
      if i >= 0 {
        docs := docs[i := docs[i].(order := order, updatedAt := now)];
      }
    }
  }
}
