/**
 * The admin panel (admin/admin.js): the requests it builds from form
 * values, the escape pair for the contact section's visual text, and its
 * local mirror of the content and the galleries, which it updates after a
 * successful request. A server response is a parameter: `None` when the
 * request failed or was not answered with success.
 */
module Admin {
  import opened Base
  import opened Text
  import opened GalleryModel
  import opened SiteContentModel
  import Server

  // -------------------------------------------------------------- visual text

  /** `replace(/\n/g, '\\n')`: each newline becomes a backslash and an `n`. */
  function EncodeVisualText(s: string): (r: string)
    ensures '\n' !in r
    ensures |r| >= |s|
  {
    if |s| == 0 then ""
    else if s[0] == '\n' then "\\n" + EncodeVisualText(s[1..])
    else [s[0]] + EncodeVisualText(s[1..])
  }

  /** `replace(/\\n/g, '\n')`: each backslash-`n` pair, left to right, becomes a newline. */
  function DecodeVisualText(s: string): (r: string)
    ensures |r| <= |s|
  {
    if |s| == 0 then ""
    else if |s| >= 2 && s[0] == '\\' && s[1] == 'n' then "\n" + DecodeVisualText(s[2..])
    else [s[0]] + DecodeVisualText(s[1..])
  }

  /** `s` holds no backslash immediately followed by `n`. */
  predicate NoEscapedNewline(s: string) {
    forall i :: 0 <= i < |s| - 1 ==> !(s[i] == '\\' && s[i + 1] == 'n')
  }

  /** Encoding starts with `n` exactly when the text does. */
  lemma EncodeFirst(s: string)
    requires |s| > 0
    ensures |EncodeVisualText(s)| > 0 && (EncodeVisualText(s)[0] == 'n' <==> s[0] == 'n')
  {
  }

  /** Rendering what was saved gives back the text typed, when it holds no literal backslash-`n`. */
  lemma {:induction false} VisualTextRoundTrip(s: string)
    requires NoEscapedNewline(s)
    ensures DecodeVisualText(EncodeVisualText(s)) == s
  {
    if |s| > 0 {
      var rest := s[1..];
      assert NoEscapedNewline(rest) by {
        forall i | 0 <= i < |rest| - 1 ensures !(rest[i] == '\\' && rest[i + 1] == 'n') {
          assert rest[i] == s[i + 1] && rest[i + 1] == s[i + 2];
        }
      }
      VisualTextRoundTrip(rest);
      var e := EncodeVisualText(rest);
      if s[0] == '\n' {
        assert EncodeVisualText(s) == "\\n" + e;
        assert ("\\n" + e)[2..] == e;
      } else {
        assert EncodeVisualText(s) == [s[0]] + e;
        if s[0] == '\\' && |rest| > 0 {
          EncodeFirst(rest);
          assert s[1] != 'n';
        }
        assert ([s[0]] + e)[1..] == e;
      }
    }
  }

  /** Saving what was rendered gives back the stored text, when it holds no raw newline. */
  lemma {:induction false} VisualTextRoundTripBack(t: string)
    requires '\n' !in t
    ensures EncodeVisualText(DecodeVisualText(t)) == t
  {
    if |t| > 0 {
      if |t| >= 2 && t[0] == '\\' && t[1] == 'n' {
        VisualTextRoundTripBack(t[2..]);
        assert ("\n" + DecodeVisualText(t[2..]))[1..] == DecodeVisualText(t[2..]);
        assert t == "\\n" + t[2..];
      } else {
        VisualTextRoundTripBack(t[1..]);
        assert ([t[0]] + DecodeVisualText(t[1..]))[1..] == DecodeVisualText(t[1..]);
        assert t == [t[0]] + t[1..];
      }
    }
  }

  // ----------------------------------------------------------------- requests

  /**
   * `createGallery`'s request body: nothing is sent for an empty name;
   * otherwise the form fields and the name's slug as the folder.
   */
  function CreateGalleryRequest(name: string, category: string, description: string, active: bool, featured: bool)
    : (r: Option<GalleryFields>)
    ensures r.None? <==> name == ""
    ensures r.Some? ==>
      r.value.name == Some(name) && r.value.id.None? && r.value.folder == Some(Slug(name))
      && r.value.isActive == Some(active) && r.value.isFeatured == Some(featured)
      && r.value.category == Some(category) && r.value.description == Some(description)
      && r.value.order.None? && r.value.coverImage.None? && r.value.coverImagePublicId.None?
  {
    if name == "" then None
    else Some(GalleryFields(None, Some(name), Some(category), Some(description), Some(Slug(name)),
                            Some(active), Some(featured), None, None, None))
  }

  /**
   * The folder the server settles on for an admin-created gallery: the
   * slug of the name, or the generated id when the slug is empty.
   */
  lemma CreatedFolderIsSlugOrId(name: string, category: string, description: string, active: bool, featured: bool,
                                galleryId: string)
    requires name != ""
    ensures var body := CreateGalleryRequest(name, category, description, active, featured).value;
      Server.FolderFor(body, galleryId) == if Slug(name) != "" then Slug(name) else galleryId
  {
  }

  /** The role a testimonial gets when its field is left empty. */
  const DefaultRole: string := "לקוח מרוצה"

  /** What `saveTestimonial` sends: a new entry when no id is being edited, an update otherwise. */
  datatype TestimonialRequest = Post(fields: TestimonialFields) | Put(id: string, fields: TestimonialFields)

  /**
   * `saveTestimonial`: nothing is sent without an author name; otherwise the
   * initial is the name's first character, an empty role becomes the
   * default one, and the entry is marked active.
   */
  function SaveTestimonialRequest(editId: string, authorName: string, role: string, text: string, shortText: string)
    : (r: Option<TestimonialRequest>)
    ensures r.None? <==> authorName == ""
    ensures r.Some? ==>
      var f := r.value.fields;
      f.authorName == Some(authorName) && f.authorInitial == Some(authorName[..1])
      && f.authorRole == Some(if role == "" then DefaultRole else role)
      && f.isActive == Some(true) && f.id.None?
      && f.text == Some(text) && f.shortText == Some(shortText)
      && (r.value.Put? <==> editId != "") && (r.value.Put? ==> r.value.id == editId)
  {
    if authorName == "" then None
    else
      var f := TestimonialFields(None, Some(text), Some(shortText), Some(authorName), Some(authorName[..1]),
                                 Some(if role == "" then DefaultRole else role), Some(true));
      Some(if editId != "" then Put(editId, f) else Post(f))
  }

  /** A testimonial created from the panel is stored active, under the generated id, with the default role filled in. */
  lemma SavedTestimonialIsActive(authorName: string, role: string, text: string, shortText: string, generatedId: string, now: int)
    requires authorName != ""
    ensures var f := SaveTestimonialRequest("", authorName, role, text, shortText).value.fields;
      var t := NewTestimonial(generatedId, f, now);
      t.isActive && t.id == generatedId && t.authorInitial == authorName[..1] && t.authorRole != ""
  {
  }

  // ------------------------------------------------------------- local state

  predicate FrontHasId(g: FrontGallery, id: string) { g.id == id }

  /** The panel's `state`: the loaded content and galleries and the gallery being edited. */
  class AdminState {
    var content: FrontContent
    var galleries: seq<FrontGallery>
    var currentGalleryId: Option<string>

    constructor (content: FrontContent, galleries: seq<FrontGallery>)
      ensures this.content == content && this.galleries == galleries && currentGalleryId.None?
    {
      this.content := content;
      this.galleries := galleries;
      currentGalleryId := None;
    }

    /** `uploadLogo`: on success the slot shows the returned path. */
    method UploadLogo(typ: string, response: Option<string>)
      modifies this
      ensures galleries == old(galleries) && currentGalleryId == old(currentGalleryId)
      ensures content == if response.Some? then old(content).(logo := old(content).logo[typ := response.value]) else old(content)
    {
      if response.Some? {
        content := content.(logo := content.logo[typ := response.value]);
      }
    }

    /** `deleteLogo`: on success the slot is removed. */
    method DeleteLogo(typ: string, ok: bool)
      modifies this
      ensures galleries == old(galleries) && currentGalleryId == old(currentGalleryId)
      ensures content == if ok then old(content).(logo := old(content).logo - {typ}) else old(content)
    {
      if ok {
        content := content.(logo := content.logo - {typ});
      }
    }

    /**
     * `uploadHeroImage`: one request per selected file, in order; each
     * successful response is appended to the hero images.
     */
    method UploadHeroImages(responses: seq<Option<FrontHeroImage>>)
      modifies this
      ensures galleries == old(galleries) && currentGalleryId == old(currentGalleryId)
      ensures content == old(content).(hero := old(content).hero.(images := old(content).hero.images + Successes(responses)))
    {
      var i := 0;
      while i < |responses|
        invariant 0 <= i <= |responses|
        invariant galleries == old(galleries) && currentGalleryId == old(currentGalleryId)
        invariant content == old(content).(hero := old(content).hero.(images := old(content).hero.images + Successes(responses[..i])))
      {
        SuccessesStep(responses, i);
        if responses[i].Some? {
          content := content.(hero := content.hero.(images := content.hero.images + [responses[i].value]));
        }
        i := i + 1;
      }
      assert responses[..i] == responses;
    }

    /** `deleteHeroImage`: on success every hero image with that id disappears, the rest keep their order. */
    method DeleteHeroImage(imageId: string, ok: bool)
      modifies this
      ensures galleries == old(galleries) && currentGalleryId == old(currentGalleryId)
      ensures content == if ok then old(content).(hero := old(content).hero.(images := Filter(old(content).hero.images, (img: FrontHeroImage) => img.id != imageId)))
                         else old(content)
    {
      if ok {
        content := content.(hero := content.hero.(images := Filter(content.hero.images, (img: FrontHeroImage) => img.id != imageId)));
      }
    }

    /** `createGallery`: an empty name sends nothing and changes nothing; a created gallery is appended. */
    method CreateGallery(name: string, category: string, description: string, active: bool, featured: bool,
                         response: Option<FrontGallery>)
      returns (request: Option<GalleryFields>)
      modifies this
      ensures request == CreateGalleryRequest(name, category, description, active, featured)
      ensures content == old(content) && currentGalleryId == old(currentGalleryId)
      ensures galleries == if request.Some? && response.Some? then old(galleries) + [response.value] else old(galleries)
    {
      request := CreateGalleryRequest(name, category, description, active, featured);
      if request.Some? && response.Some? {
        galleries := galleries + [response.value];
      }
    }

    /**
     * `uploadGalleryImages`: with a non-empty gallery id being edited and at least one
     * file, a successful response's images are appended after the existing
     * ones of that gallery.
     */
    method UploadGalleryImages(fileCount: nat, response: Option<seq<FrontImage>>)
      modifies this
      ensures content == old(content) && currentGalleryId == old(currentGalleryId)
      ensures var cur := currentGalleryId.GetOr("");
        var i := if Truthy(currentGalleryId) then FindIndex(old(galleries), g => FrontHasId(g, cur)) else -1;
        if !Truthy(currentGalleryId) || fileCount == 0 || i == -1 || response.None? then galleries == old(galleries)
        else galleries == old(galleries)[i := old(galleries)[i].(images := old(galleries)[i].images + response.value)]
    {
      if !Truthy(currentGalleryId) || fileCount == 0 {
        return;
      }
      var cur := currentGalleryId.value;
      var i := FindIndex(galleries, g => FrontHasId(g, cur));
      if i == -1 || response.None? {
        return;
      }
      galleries := galleries[i := galleries[i].(images := galleries[i].images + response.value)];
    }

    /** `deleteGalleryImage`: on success the images with that id leave the first gallery with the given id. */
    method DeleteGalleryImage(galleryId: string, imageId: string, ok: bool)
      modifies this
      ensures content == old(content) && currentGalleryId == old(currentGalleryId)
      ensures var i := FindIndex(old(galleries), g => FrontHasId(g, galleryId));
        if !ok || i == -1 then galleries == old(galleries)
        else galleries == old(galleries)[i := old(galleries)[i].(images := Filter(old(galleries)[i].images, (img: FrontImage) => img.id != imageId))]
    {
      if !ok {
        return;
      }
      var i := FindIndex(galleries, g => FrontHasId(g, galleryId));
      if i == -1 {
        return;
      }
      galleries := galleries[i := galleries[i].(images := Filter(galleries[i].images, (img: FrontImage) => img.id != imageId))];
    }

    /**
     * `deleteGallery`: on success every gallery with that id leaves the list
     * and the edit panel is closed.
     */
    method DeleteGallery(galleryId: string, ok: bool)
      modifies this
      ensures content == old(content)
      ensures galleries == if ok then Filter(old(galleries), (g: FrontGallery) => g.id != galleryId) else old(galleries)
      ensures ok ==> currentGalleryId.None?
      ensures !ok ==> currentGalleryId == old(currentGalleryId)
    {
      if ok {
        galleries := Filter(galleries, (g: FrontGallery) => g.id != galleryId);
        CloseGalleryEdit();
      }
    }

    /** `editGallery`: a gallery in the list becomes the one being edited; an unknown id changes nothing. */
    method EditGallery(galleryId: string)
      modifies this
      ensures content == old(content) && galleries == old(galleries)
      ensures FindIndex(galleries, g => FrontHasId(g, galleryId)) >= 0 ==> currentGalleryId == Some(galleryId)
      ensures FindIndex(galleries, g => FrontHasId(g, galleryId)) == -1 ==> currentGalleryId == old(currentGalleryId)
    {
      var i := FindIndex(galleries, g => FrontHasId(g, galleryId));
      if i >= 0 {
        currentGalleryId := Some(galleryId);
      }
    }

    /** `closeGalleryEdit`: no gallery is being edited any more. */
    method CloseGalleryEdit()
      modifies this
      ensures content == old(content) && galleries == old(galleries) && currentGalleryId.None?
    {
      currentGalleryId := None;
    }

    /**
     * `saveGalleryDetails`: `galleryId` is the edit form's hidden id field
     * (set by `editGallery`, never cleared). An empty id sends nothing;
     * otherwise the edited name, category, description and flags are sent,
     * and on a successful response the panel's copy of the first gallery
     * with that id takes them. Nothing else changes.
     */
    method SaveGalleryDetails(galleryId: string, name: string, category: string, description: string,
                              active: bool, featured: bool, ok: bool)
      returns (request: Option<GalleryFields>)
      modifies this
      ensures content == old(content) && currentGalleryId == old(currentGalleryId)
      ensures request.Some? <==> galleryId != ""
      ensures request.Some? ==> request.value == GalleryFields(None, Some(name), Some(category), Some(description),
                                                               None, Some(active), Some(featured), None, None, None)
      ensures var i := FindIndex(old(galleries), g => FrontHasId(g, galleryId));
        if request.None? || !ok || i == -1 then galleries == old(galleries)
        else galleries == old(galleries)[i := old(galleries)[i].(name := name, category := category, description := description,
                                                                   isActive := active, isFeatured := featured)]
    {
      if galleryId == "" {
        return None;
      }
      request := Some(GalleryFields(None, Some(name), Some(category), Some(description), None, Some(active), Some(featured), None, None, None));
      if !ok {
        return;
      }
      var i := FindIndex(galleries, g => FrontHasId(g, galleryId));
      if i == -1 {
        return;
      }
      galleries := galleries[i := galleries[i].(name := name, category := category, description := description,
                                                isActive := active, isFeatured := featured)];
    }
  }

  /**
   * Editing a listed gallery and then uploading images to it appends the
   * response's images to that gallery.
   */
  method EditThenUpload(panel: AdminState, galleryId: string, images: seq<FrontImage>)
    requires FindIndex(panel.galleries, g => FrontHasId(g, galleryId)) >= 0
    modifies panel
    ensures var i := FindIndex(old(panel.galleries), g => FrontHasId(g, galleryId));
      galleryId != "" ==>
        panel.galleries == old(panel.galleries)[i := old(panel.galleries)[i].(images := old(panel.galleries)[i].images + images)]
    ensures galleryId == "" ==> panel.galleries == old(panel.galleries)
    ensures panel.currentGalleryId == Some(galleryId)
  {
    panel.EditGallery(galleryId);
    panel.UploadGalleryImages(1, Some(images));
  }

  /** The successful responses, in order. */
  function Successes<T>(responses: seq<Option<T>>): (r: seq<T>)
    ensures |r| <= |responses|
  {
    if |responses| == 0 then []
    else Successes(responses[..|responses| - 1])
         + (if responses[|responses| - 1].Some? then [responses[|responses| - 1].value] else [])
  }

  lemma SuccessesStep<T>(responses: seq<Option<T>>, i: nat)
    requires i < |responses|
    ensures Successes(responses[..i + 1]) == Successes(responses[..i]) + (if responses[i].Some? then [responses[i].value] else [])
  {
    assert responses[..i + 1][..i] == responses[..i];
  }

  /** With every request answered, all the uploaded images arrive, in the order of the files. */
  lemma {:induction false} AllSucceed<T>(responses: seq<Option<T>>)
    requires forall k :: 0 <= k < |responses| ==> responses[k].Some?
    ensures |Successes(responses)| == |responses|
    ensures forall k :: 0 <= k < |responses| ==> Successes(responses)[k] == responses[k].value
  {
    if |responses| > 0 {
      AllSucceed(responses[..|responses| - 1]);
    }
  }
}
