/**
 * The site-content handlers of server.js: testimonials, hero images and
 * logo slots. Each one first loads the document through `getContent`
 * (creating the default document when there is none, even when the
 * request then fails), changes it and saves it. `now` stands for
 * `Date.now()` and `docId` for the id the database would give a created
 * document.
 */
module ServerContent {
  import opened Base
  import opened Text
  import opened SiteContentModel
  import Server

  // ------------------------------------------------------------- testimonials

  function TestimonialId(now: nat): (id: string)
    ensures |id| > 12 && id[..12] == "testimonial-"
  {
    "testimonial-" + Decimal(now)
  }

  predicate TestimonialHasId(t: Testimonial, id: string) { t.id == id }

  /** Changing the testimonials of a valid document keeps it valid exactly when their ids are non-empty. */
  lemma TestimonialsSavable(c: SiteContent, ts: seq<Testimonial>)
    requires Savable(c)
    ensures Savable(c.(testimonials := ts)) <==> forall k :: 0 <= k < |ts| ==> ts[k].id != ""
  {
  }

  /**
   * `POST /api/testimonials`: appends `{ id, ...body, createdAt }`; an empty
   * `id` in the body fails validation and nothing is added.
   */
  method AddTestimonial(store: ContentStore, body: TestimonialFields, docId: string, now: nat)
    returns (status: Server.Status)
    requires store.Valid()
    modifies store
    ensures store.Valid() && |store.docs| == 1
    ensures var c := Current(old(store.docs), docId, now);
      var t := NewTestimonial(TestimonialId(now), body, now);
      (status == Server.Ok <==> t.id != "")
      && (status.Ok? || status == Server.Failed("Failed to add testimonial"))
      && store.docs == if status.Ok? then [Stored(c.(testimonials := c.testimonials + [t]), now)] else [c]
  {
    var c := store.GetContent(docId, now);
    var t := NewTestimonial(TestimonialId(now), body, now);
    var ts := c.testimonials + [t];
    TestimonialsSavable(c, ts);
    assert (forall k :: 0 <= k < |ts| ==> ts[k].id != "") <==> t.id != "" by {
      assert ts[|ts| - 1] == t;
      assert forall k :: 0 <= k < |c.testimonials| ==> ts[k] == c.testimonials[k];
    }
    var ok := store.Save(c.(testimonials := ts), now);
    status := if ok then Server.Ok else Server.Failed("Failed to add testimonial");
  }

  /**
   * `PUT /api/testimonials/:id`: the body is merged over the first entry
   * with that id; the other entries are untouched.
   */
  method UpdateTestimonial(store: ContentStore, id: string, body: TestimonialFields, docId: string, now: int)
    returns (status: Server.Status)
    requires store.Valid()
    modifies store
    ensures store.Valid() && |store.docs| == 1
    ensures var c := Current(old(store.docs), docId, now);
      var i := FindIndex(c.testimonials, t => TestimonialHasId(t, id));
      if i == -1 then status == Server.NotFound("Testimonial not found") && store.docs == [c]
      else
        var merged := MergeTestimonial(c.testimonials[i], body);
        (status == Server.Ok <==> merged.id != "")
        && (status.Ok? || status == Server.Failed("Failed to update testimonial"))
        && store.docs == if status.Ok? then [Stored(c.(testimonials := c.testimonials[i := merged]), now)] else [c]
  {
    var c := store.GetContent(docId, now);
    var i := FindIndex(c.testimonials, t => TestimonialHasId(t, id));
    if i == -1 {
      return Server.NotFound("Testimonial not found");
    }
    var merged := MergeTestimonial(c.testimonials[i], body);
    var ts := c.testimonials[i := merged];
    TestimonialsSavable(c, ts);
    assert (forall k :: 0 <= k < |ts| ==> ts[k].id != "") <==> merged.id != "" by {
      assert ts[i] == merged;
    }
    var ok := store.Save(c.(testimonials := ts), now);
    status := if ok then Server.Ok else Server.Failed("Failed to update testimonial");
  }

  /** `DELETE /api/testimonials/:id`: removes the first entry with that id and nothing else. */
  method DeleteTestimonial(store: ContentStore, id: string, docId: string, now: int)
    returns (status: Server.Status)
    requires store.Valid()
    modifies store
    ensures store.Valid() && |store.docs| == 1
    ensures var c := Current(old(store.docs), docId, now);
      var i := FindIndex(c.testimonials, t => TestimonialHasId(t, id));
      if i == -1 then status == Server.NotFound("Testimonial not found") && store.docs == [c]
      else status == Server.Ok && store.docs == [Stored(c.(testimonials := RemoveAt(c.testimonials, i)), now)]
  {
    var c := store.GetContent(docId, now);
    var i := FindIndex(c.testimonials, t => TestimonialHasId(t, id));
    if i == -1 {
      return Server.NotFound("Testimonial not found");
    }
    var ts := RemoveAt(c.testimonials, i);
    TestimonialsSavable(c, ts);
    var ok := store.Save(c.(testimonials := ts), now);
    assert ok;
    status := Server.Ok;
  }

  /**
   * Deleting a testimonial by the id it was just added under gives back the
   * original list, provided no earlier entry shares that id.
   */
  lemma AddThenDeleteTestimonial(ts: seq<Testimonial>, t: Testimonial)
    requires forall k :: 0 <= k < |ts| ==> ts[k].id != t.id
    ensures FindIndex(ts + [t], x => TestimonialHasId(x, t.id)) == |ts|
    ensures RemoveAt(ts + [t], |ts|) == ts
  {
    var all := ts + [t];
    assert forall k :: 0 <= k < |ts| ==> all[k] == ts[k];
    assert TestimonialHasId(all[|ts|], t.id);
    assert all[..|ts|] == ts;
  }

  // ------------------------------------------------------------- hero images

  predicate HeroHasId(img: HeroImage, id: string) { img.id == id }

  /** Changing the hero images of a valid document keeps it valid exactly when their ids and paths are non-empty. */
  lemma HeroImagesSavable(c: SiteContent, imgs: seq<HeroImage>)
    requires Savable(c)
    ensures Savable(c.(hero := c.hero.(images := imgs))) <==> forall k :: 0 <= k < |imgs| ==> imgs[k].id != "" && imgs[k].path != ""
  {
  }

  /**
   * `DELETE /api/hero-images/:id`: the first image with that id is
   * destroyed on the host when it has a public id, then removed.
   */
  method DeleteHeroImage(store: ContentStore, id: string, docId: string, now: int)
    returns (status: Server.Status, destroyed: seq<string>)
    requires store.Valid()
    modifies store
    ensures store.Valid() && |store.docs| == 1
    ensures var c := Current(old(store.docs), docId, now);
      var i := FindIndex(c.hero.images, img => HeroHasId(img, id));
      if i == -1 then status == Server.NotFound("Image not found") && destroyed == [] && store.docs == [c]
      else
        status == Server.Ok
        && destroyed == (if Truthy(c.hero.images[i].publicId) then [c.hero.images[i].publicId.value] else [])
        && store.docs == [Stored(c.(hero := c.hero.(images := RemoveAt(c.hero.images, i))), now)]
  {
    var c := store.GetContent(docId, now);
    var i := FindIndex(c.hero.images, img => HeroHasId(img, id));
    if i == -1 {
      return Server.NotFound("Image not found"), [];
    }
    var image := c.hero.images[i];
    destroyed := if Truthy(image.publicId) then [image.publicId.value] else [];
    var imgs := RemoveAt(c.hero.images, i);
    HeroImagesSavable(c, imgs);
    var ok := store.Save(c.(hero := c.hero.(images := imgs)), now);
    assert ok;
    status := Server.Ok;
  }

  function HeroId(now: nat): (id: string)
    ensures |id| > 5 && id[..5] == "hero-"
  {
    "hero-" + Decimal(now)
  }

  /**
   * `POST /api/hero-images`: a refused upload answers 400 before the content
   * is loaded; a request without a file fails after loading it; otherwise
   * the new image is appended.
   */
  method UploadHeroImage(store: ContentStore, upload: Server.FileUpload, docId: string, now: nat)
    returns (status: Server.Status)
    requires store.Valid()
    modifies store
    ensures store.Valid()
    ensures upload.FileRefused? ==> status == Server.BadRequest(upload.message) && store.docs == old(store.docs)
    ensures upload.NoFile? ==>
      status == Server.Failed("Failed to save hero image") && store.docs == [Current(old(store.docs), docId, now)]
    ensures upload.File? ==>
      var c := Current(old(store.docs), docId, now);
      var f := upload.file;
      var img := HeroImage(HeroId(now), f.path, Some(f.filename), Some(f.originalName), now);
      (status == Server.Ok <==> f.path != "")
      && (status.Ok? || status == Server.Failed("Failed to save hero image"))
      && store.docs == if status.Ok? then [Stored(c.(hero := c.hero.(images := c.hero.images + [img])), now)] else [c]
  {
    if upload.FileRefused? {
      return Server.BadRequest(upload.message);
    }
    var c := store.GetContent(docId, now);
    if upload.NoFile? {
      return Server.Failed("Failed to save hero image");
    }
    var f := upload.file;
    var img := HeroImage(HeroId(now), f.path, Some(f.filename), Some(f.originalName), now);
    var imgs := c.hero.images + [img];
    HeroImagesSavable(c, imgs);
    assert (forall k :: 0 <= k < |imgs| ==> imgs[k].id != "" && imgs[k].path != "") <==> f.path != "" by {
      assert imgs[|imgs| - 1] == img;
      assert forall k :: 0 <= k < |c.hero.images| ==> imgs[k] == c.hero.images[k];
    }
    var ok := store.Save(c.(hero := c.hero.(images := imgs)), now);
    status := if ok then Server.Ok else Server.Failed("Failed to save hero image");
  }

  // -------------------------------------------------------------------- logo

  /** `req.body.type || 'main'`. */
  function LogoType(t: Option<string>): (r: string)
    ensures r != ""
    ensures Truthy(t) ==> r == t.value
  {
    if Truthy(t) then t.value else "main"
  }

  function PublicIdField(t: string): string { t + "PublicId" }

  /** `typePublicId` names a schema field exactly for the three image slots. */
  lemma PublicIdFieldInSchema(t: string)
    ensures PublicIdField(t) in LogoKeys <==> t in {"main", "light", "favicon"}
  {
    var f := PublicIdField(t);
    assert |f| == |t| + 8 && f[..|t|] == t;
    if f == "mainPublicId" {
      assert |t| == 4 && t[0] == 'm' && t[1] == 'a' && t[2] == 'i' && t[3] == 'n';
      assert t == "main";
    } else if f == "lightPublicId" {
      assert |t| == 5 && t[0] == 'l' && t[1] == 'i' && t[2] == 'g' && t[3] == 'h' && t[4] == 't';
      assert t == "light";
    } else if f == "faviconPublicId" {
      assert |t| == 7 && t[0] == 'f' && t[1] == 'a' && t[2] == 'v' && t[3] == 'i' && t[4] == 'c' && t[5] == 'o' && t[6] == 'n';
      assert t == "favicon";
    }
  }

  /** The logo after an upload of `path` / `filename` to slot `t`, before the schema cuts it down. */
  function LogoWith(m: map<string, string>, t: string, path: string, filename: string): map<string, string> {
    m[t := path][PublicIdField(t) := filename]
  }

  /**
   * For one of the three slots the upload sets the slot and its public id
   * and keeps every other field; for any other type the saved logo is the
   * old one.
   */
  lemma UploadLogoSlots(m: map<string, string>, t: string, path: string, filename: string)
    requires m.Keys <= LogoKeys
    ensures t in {"main", "light", "favicon"} ==>
      var r := StoreLogo(LogoWith(m, t, path, filename));
      t in r && PublicIdField(t) in r && r[t] == path && r[PublicIdField(t)] == filename
      && forall k :: k != t && k != PublicIdField(t) ==> (k in r <==> k in m) && (k in r ==> r[k] == m[k])
    ensures t !in LogoKeys && PublicIdField(t) !in LogoKeys ==> StoreLogo(LogoWith(m, t, path, filename)) == m
  {
    PublicIdFieldInSchema(t);
    var r := StoreLogo(LogoWith(m, t, path, filename));
    if t in {"main", "light", "favicon"} {
      assert t in LogoKeys && PublicIdField(t) in LogoKeys;
      assert t != PublicIdField(t) by { assert |PublicIdField(t)| == |t| + 8; }
    }
  }

  /**
   * `POST /api/logo`: the old public id of slot `type` (default `main`) is
   * destroyed on the host, then the slot and its public id are set. A
   * request without a file fails after that destruction, leaving the old
   * values stored.
   */
  method UploadLogo(store: ContentStore, typ: Option<string>, upload: Server.FileUpload, docId: string, now: int)
    returns (status: Server.Status, destroyed: seq<string>)
    requires store.Valid()
    modifies store
    ensures store.Valid()
    ensures upload.FileRefused? ==> status == Server.BadRequest(upload.message) && destroyed == [] && store.docs == old(store.docs)
    ensures !upload.FileRefused? ==>
      var c := Current(old(store.docs), docId, now);
      var t := LogoType(typ);
      var old_ := Lookup(c.logo, PublicIdField(t));
      destroyed == (if Truthy(old_) then [old_.value] else [])
      && (upload.NoFile? ==> status == Server.Failed("Failed to save logo") && store.docs == [c])
      && (upload.File? ==>
            status == Server.Ok
            && store.docs == [Stored(c.(logo := LogoWith(c.logo, t, upload.file.path, upload.file.filename)), now)])
  {
    if upload.FileRefused? {
      return Server.BadRequest(upload.message), [];
    }
    var c := store.GetContent(docId, now);
    var t := LogoType(typ);
    var oldId := Lookup(c.logo, PublicIdField(t));
    destroyed := if Truthy(oldId) then [oldId.value] else [];
    if upload.NoFile? {
      return Server.Failed("Failed to save logo"), destroyed;
    }
    var ok := store.Save(c.(logo := LogoWith(c.logo, t, upload.file.path, upload.file.filename)), now);
    assert ok;
    status := Server.Ok;
  }

  /**
   * `DELETE /api/logo/:type`: 404 when the slot is unset or empty; otherwise
   * its public id is destroyed on the host when set, and both fields are
   * cleared.
   */
  method DeleteLogo(store: ContentStore, t: string, docId: string, now: int)
    returns (status: Server.Status, destroyed: seq<string>)
    requires store.Valid()
    modifies store
    ensures store.Valid() && |store.docs| == 1
    ensures var c := Current(old(store.docs), docId, now);
      if !Truthy(Lookup(c.logo, t)) then status == Server.NotFound("Logo not found") && destroyed == [] && store.docs == [c]
      else
        var pid := Lookup(c.logo, PublicIdField(t));
        status == Server.Ok
        && destroyed == (if Truthy(pid) then [pid.value] else [])
        && store.docs == [Stored(c.(logo := c.logo - {t, PublicIdField(t)}), now)]
  {
    var c := store.GetContent(docId, now);
    if !Truthy(Lookup(c.logo, t)) {
      return Server.NotFound("Logo not found"), [];
    }
    var pid := Lookup(c.logo, PublicIdField(t));
    destroyed := if Truthy(pid) then [pid.value] else [];
    var ok := store.Save(c.(logo := c.logo - {t, PublicIdField(t)}), now);
    assert ok;
    status := Server.Ok;
  }

  /**
   * Uploading to a slot and then deleting it leaves the logo as it was,
   * less that slot: the two handlers undo each other.
   */
  lemma UploadThenDeleteLogo(m: map<string, string>, t: string, path: string, filename: string)
    requires m.Keys <= LogoKeys && t in {"main", "light", "favicon"}
    ensures var after := StoreLogo(LogoWith(m, t, path, filename));
      StoreLogo(after - {t, PublicIdField(t)}) == m - {t, PublicIdField(t)}
  {
    UploadLogoSlots(m, t, path, filename);
  }
}
