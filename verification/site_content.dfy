/**
 * The single site-content document (models/SiteContent.js): its sections
 * and their schema defaults, the get-or-create accessor that keeps the
 * collection at one document, and the public projection.
 */
module SiteContentModel {
  import opened Base

  /** A hero carousel image as stored. */
  datatype HeroImage = HeroImage(id: string, path: string, publicId: Option<string>, filename: Option<string>, uploadedAt: int)

  datatype Hero = Hero(subtitle: string, title: seq<string>, description: string, ctaText: string, images: seq<HeroImage>)

  datatype Stat = Stat(number: Option<string>, labelText: Option<string>)

  datatype About = About(
    labelText: string, title: string, lead: string, text: string, moreText: string,
    image: string, imagePublicId: Option<string>, stats: seq<Stat>)

  datatype Quote = Quote(id: string, text: string, author: string)

  datatype Projects = Projects(labelText: string, title: string, featured: seq<string>)

  datatype Testimonial = Testimonial(
    id: string, text: string, shortText: string, authorName: string,
    authorInitial: string, authorRole: string, isActive: bool, createdAt: int)

  datatype Contact = Contact(
    labelText: string, title: string, description: string, whatsapp: string, whatsappDisplay: string,
    phone: string, phoneDisplay: string, email: string, visualText: string)

  datatype Footer = Footer(tagline: string, copyright: string, creditName: string, creditPhone: string)

  datatype Seo = Seo(title: string, description: string, keywords: string)

  /**
   * The stored document. The logo sub-document is a map from field name to
   * value; a field that is unset is absent from the map.
   */
  datatype SiteContent = SiteContent(
    docId: string, version: int,
    logo: map<string, string>, hero: Hero, about: About, quotes: seq<Quote>, projects: Projects,
    testimonials: seq<Testimonial>, contact: Contact, footer: Footer, seo: Seo,
    createdAt: int, updatedAt: int)

  /** The six fields of the logo schema. */
  const LogoKeys: set<string> := {"main", "mainPublicId", "light", "lightPublicId", "favicon", "faviconPublicId"}

  /** The three host-side id fields of the logo schema. */
  const LogoPublicIdKeys: set<string> := {"mainPublicId", "lightPublicId", "faviconPublicId"}

  /** What a strict schema keeps of a logo object when it is saved: only its own six fields. */
  function StoreLogo(m: map<string, string>): (r: map<string, string>)
    ensures r.Keys == m.Keys * LogoKeys
    ensures forall k :: k in r ==> r[k] == m[k]
  {
    map k | k in m && k in LogoKeys :: m[k]
  }

  /** The fields a request body may carry for a testimonial. */
  datatype TestimonialFields = TestimonialFields(
    id: Option<string>, text: Option<string>, shortText: Option<string>, authorName: Option<string>,
    authorInitial: Option<string>, authorRole: Option<string>, isActive: Option<bool>)

  /**
   * `{ id: generated, ...body, createdAt: now }` cast to the testimonial
   * schema: a body `id` overrides the generated one, absent strings default
   * to `''` and `isActive` defaults to true.
   */
  function NewTestimonial(generatedId: string, f: TestimonialFields, now: int): (t: Testimonial)
    ensures t.id == (if f.id.Some? then f.id.value else generatedId)
    ensures t.isActive == (f.isActive != Some(false))
    ensures t.createdAt == now
    ensures t.text == (if f.text.Some? then f.text.value else "")
    ensures t.shortText == (if f.shortText.Some? then f.shortText.value else "")
    ensures t.authorName == (if f.authorName.Some? then f.authorName.value else "")
    ensures t.authorInitial == (if f.authorInitial.Some? then f.authorInitial.value else "")
    ensures t.authorRole == (if f.authorRole.Some? then f.authorRole.value else "")
  {
    Testimonial(f.id.GetOr(generatedId), f.text.GetOr(""), f.shortText.GetOr(""), f.authorName.GetOr(""),
                f.authorInitial.GetOr(""), f.authorRole.GetOr(""), f.isActive.GetOr(true), now)
  }

  /** `{ ...entry, ...body }`: the body's fields override, every other field is kept. */
  function MergeTestimonial(t: Testimonial, f: TestimonialFields): (r: Testimonial)
    ensures r.createdAt == t.createdAt
    ensures r.id == (if f.id.Some? then f.id.value else t.id)
    ensures r.isActive == (if f.isActive.Some? then f.isActive.value else t.isActive)
    ensures r.text == (if f.text.Some? then f.text.value else t.text)
    ensures r.shortText == (if f.shortText.Some? then f.shortText.value else t.shortText)
    ensures r.authorName == (if f.authorName.Some? then f.authorName.value else t.authorName)
    ensures r.authorInitial == (if f.authorInitial.Some? then f.authorInitial.value else t.authorInitial)
    ensures r.authorRole == (if f.authorRole.Some? then f.authorRole.value else t.authorRole)
  {
    Testimonial(f.id.GetOr(t.id), f.text.GetOr(t.text), f.shortText.GetOr(t.shortText),
                f.authorName.GetOr(t.authorName), f.authorInitial.GetOr(t.authorInitial),
                f.authorRole.GetOr(t.authorRole), f.isActive.GetOr(t.isActive), t.createdAt)
  }

  /** A body without fields merges to the entry itself. */
  lemma MergeNothing(t: Testimonial)
    ensures MergeTestimonial(t, TestimonialFields(None, None, None, None, None, None, None)) == t
  {
  }

  /** Creating a testimonial is merging the body over the schema's default entry. */
  lemma NewIsMergeOverDefaults(generatedId: string, f: TestimonialFields, now: int)
    ensures NewTestimonial(generatedId, f, now) == MergeTestimonial(Testimonial(generatedId, "", "", "", "", "", true, now), f)
  {
  }

  /** Merging the same body twice is the same as merging it once. */
  lemma MergeIdempotent(t: Testimonial, f: TestimonialFields)
    ensures MergeTestimonial(MergeTestimonial(t, f), f) == MergeTestimonial(t, f)
  {
  }

  /**
   * The document `create({})` produces: every section present with its
   * defaults: empty strings, an empty logo, empty hero title and images,
   * empty about stats, no quotes, no featured projects, no testimonials.
   */
  function DefaultContent(docId: string, now: int): (c: SiteContent)
    ensures c.docId == docId && c.createdAt == now && c.updatedAt == now
    ensures c.logo == map[]
    ensures c.hero.title == [] && c.hero.images == [] && c.hero.subtitle == ""
    ensures c.about.stats == [] && c.about.image == "" && c.about.imagePublicId.None?
    ensures c.quotes == [] && c.testimonials == [] && c.projects.featured == []
    ensures c.contact.visualText == "" && c.seo.title == ""
  {
    SiteContent(docId, 0, map[], Hero("", [], "", "", []),
                About("", "", "", "", "", "", None, []), [], Projects("", "", []), [],
                Contact("", "", "", "", "", "", "", "", ""), Footer("", "", "", ""), Seo("", "", ""),
                now, now)
  }

  /** The content a handler works on: the stored document, or the default one `getContent` creates. */
  function Current(docs: seq<SiteContent>, docId: string, now: int): (c: SiteContent)
    requires |docs| <= 1
    ensures |docs| == 1 ==> c == docs[0]
    ensures |docs| == 0 ==> c == DefaultContent(docId, now)
  {
    if |docs| == 1 then docs[0] else DefaultContent(docId, now)
  }

  /** Schema validation: required ids and paths of sub-documents are non-empty. */
  predicate Savable(c: SiteContent) {
    (forall k :: 0 <= k < |c.hero.images| ==> c.hero.images[k].id != "" && c.hero.images[k].path != "")
    && (forall k :: 0 <= k < |c.quotes| ==> c.quotes[k].id != "")
    && (forall k :: 0 <= k < |c.testimonials| ==> c.testimonials[k].id != "")
  }

  /** The document as `save()` writes it. */
  function Stored(c: SiteContent, now: int): (d: SiteContent)
    ensures d.logo.Keys <= LogoKeys && d.updatedAt == now
    ensures Savable(c) ==> Savable(d)
    ensures c.logo.Keys <= LogoKeys ==> d == c.(updatedAt := now)
  {
    c.(logo := StoreLogo(c.logo), updatedAt := now)
  }

  /** The default document passes validation. */
  lemma DefaultSavable(docId: string, now: int)
    ensures Savable(DefaultContent(docId, now))
  {
  }

  /** The `sitecontent` collection, which the accessor keeps at one document at most. */
  class ContentStore {
    var docs: seq<SiteContent>

    ghost predicate Valid()
      reads this
    {
      |docs| <= 1 && forall k :: 0 <= k < |docs| ==> Savable(docs[k]) && docs[k].logo.Keys <= LogoKeys
    }

    constructor ()
      ensures Valid() && docs == []
    {
      docs := [];
    }

    /**
     * `getContent`: the existing document when there is one; otherwise a
     * new default document is created, stored and returned. Afterwards
     * exactly one document exists, so a second call creates nothing.
     */
    method GetContent(docId: string, now: int) returns (c: SiteContent)
      requires Valid()
      modifies this
      ensures Valid() && |docs| == 1 && docs[0] == c
      ensures c == Current(old(docs), docId, now)
      ensures |old(docs)| == 1 ==> docs == old(docs)
    {
      if |docs| == 0 {
        c := DefaultContent(docId, now);
        DefaultSavable(docId, now);
        docs := [c];
      } else {
        c := docs[0];
      }
    }

    /**
     * `save()`: stores `c` with `updatedAt` bumped and the logo cut down to
     * its schema fields, unless validation refuses it.
     */
    method Save(c: SiteContent, now: int) returns (ok: bool)
      requires Valid() && |docs| == 1
      modifies this
      ensures Valid() && |docs| == 1
      ensures ok == Savable(c)
      ensures docs == if ok then [Stored(c, now)] else old(docs)
    {
      ok := Savable(c);
      if ok {
        docs := [Stored(c, now)];
      }
    }
  }

  /** A hero image as the public site sees it. */
  datatype FrontHeroImage = FrontHeroImage(id: string, path: string)

  datatype FrontHero = FrontHero(subtitle: string, title: seq<string>, description: string, ctaText: string, images: seq<FrontHeroImage>)

  datatype FrontAbout = FrontAbout(
    labelText: string, title: string, lead: string, text: string, moreText: string,
    image: string, stats: seq<Stat>)

  /** The content as the public site sees it: no database ids, timestamps or host ids. */
  datatype FrontContent = FrontContent(
    logo: map<string, string>, hero: FrontHero, about: FrontAbout, quotes: seq<Quote>, projects: Projects,
    testimonials: seq<Testimonial>, contact: Contact, footer: Footer, seo: Seo)

  /**
   * `toFrontendJSON`: drops `_id`, `__v`, `createdAt`, `updatedAt`, the
   * three logo public ids and `about.imagePublicId`; hero images become
   * `{ id, path }`; the hero and about texts and every other section pass
   * through.
   */
  function ToFrontendJSON(c: SiteContent): (f: FrontContent)
    ensures f.logo.Keys == c.logo.Keys - LogoPublicIdKeys
    ensures forall k :: k in f.logo ==> f.logo[k] == c.logo[k]
    ensures f.quotes == c.quotes && f.testimonials == c.testimonials && f.contact == c.contact
    ensures f.footer == c.footer && f.seo == c.seo && f.projects == c.projects
    ensures f.about.stats == c.about.stats && f.about.image == c.about.image
    ensures f.hero.subtitle == c.hero.subtitle && f.hero.title == c.hero.title
      && f.hero.description == c.hero.description && f.hero.ctaText == c.hero.ctaText
    ensures f.about.labelText == c.about.labelText && f.about.title == c.about.title && f.about.lead == c.about.lead
      && f.about.text == c.about.text && f.about.moreText == c.about.moreText
    ensures |f.hero.images| == |c.hero.images|
    ensures forall k :: 0 <= k < |c.hero.images| ==>
      f.hero.images[k].id == c.hero.images[k].id && f.hero.images[k].path == c.hero.images[k].path
  {
    var a := c.about;
    var h := c.hero;
    FrontContent(
      map k | k in c.logo && k !in LogoPublicIdKeys :: c.logo[k],
      FrontHero(h.subtitle, h.title, h.description, h.ctaText,
                seq(|h.images|, k requires 0 <= k < |h.images| => FrontHeroImage(h.images[k].id, h.images[k].path))),
      FrontAbout(a.labelText, a.title, a.lead, a.text, a.moreText, a.image, a.stats),
      c.quotes, c.projects, c.testimonials, c.contact, c.footer, c.seo)
  }

  /** The logo's visible fields `main`, `light` and `favicon` survive the projection unchanged. */
  lemma ProjectionKeepsLogoImages(c: SiteContent, k: string)
    requires k in {"main", "light", "favicon"}
    ensures k in ToFrontendJSON(c).logo <==> k in c.logo
    ensures k in c.logo ==> ToFrontendJSON(c).logo[k] == c.logo[k]
  {
  }

  /**
   * Nothing private leaks: documents that differ only in database ids,
   * timestamps, the host ids of the logo and the about image, and the
   * hero images' host ids and file names project to the same value.
   */
  lemma ProjectionHidesPrivateFields(c: SiteContent, d: SiteContent)
    requires c.(docId := "", version := 0, createdAt := 0, updatedAt := 0, logo := map[],
                about := c.about.(imagePublicId := None), hero := c.hero.(images := []))
          == d.(docId := "", version := 0, createdAt := 0, updatedAt := 0, logo := map[],
                about := d.about.(imagePublicId := None), hero := d.hero.(images := []))
    requires forall k :: k !in LogoPublicIdKeys ==> (k in c.logo <==> k in d.logo)
    requires forall k :: k in c.logo && k !in LogoPublicIdKeys ==> c.logo[k] == d.logo[k]
    requires |c.hero.images| == |d.hero.images|
    requires forall k :: 0 <= k < |c.hero.images| ==>
      c.hero.images[k].id == d.hero.images[k].id && c.hero.images[k].path == d.hero.images[k].path
    ensures ToFrontendJSON(c) == ToFrontendJSON(d)
  {
    var fc, fd := ToFrontendJSON(c), ToFrontendJSON(d);
    assert fc.logo == fd.logo;
    assert fc.hero.images == fd.hero.images;
    assert c.hero.(images := []) == d.hero.(images := []);
    assert c.about.(imagePublicId := None) == d.about.(imagePublicId := None);
    assert c.quotes == d.quotes && c.projects == d.projects && c.testimonials == d.testimonials;
    assert c.contact == d.contact && c.footer == d.footer && c.seo == d.seo;
  }
}
