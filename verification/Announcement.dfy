/**
  Announcements (packages/civic.announcement/service.ts): edits, removal and
  restoration, and the events that tell them. A request loads the announcement, changes
  it in memory, announces the change and only then saves it; either of the last two may
  throw.
 */
module Announcement {
  import opened Wrappers
  import opened Text
  import opened Pictures
  import Json

  const TITLE_MAX: nat := 200
  const BODY_MAX: nat := 5000
  const LINKS_MAX: nat := 5
  const LINK_LABEL_MAX: nat := 100
  const LINK_URL_MAX: nat := 500
  const MODERATION_REASON_MAX: nat := 500

  datatype Link = Link(name: string, url: string)

  datatype Content = Content(title: string, body: string, links: seq<Link>, image: Picture)

  datatype Moderation = Moderation(
    removed: bool, removedAt: int, removedBy: string, reason: string, restoredAt: Option<int>)

  /** The process row's state; a synced announcement came from another site and may have no body. */
  datatype Record = Record(
    content: Content, author: string, synced: bool,
    lastEditedAt: Option<int>, editCount: nat, moderation: Option<Moderation>)

  datatype Field = Title | Body | Links | Image

  datatype Event = Edited(fields: seq<Field>) | Removed(reason: string, who: string) | Restored(reason: string, who: string)

  datatype Error =
    | NotAuthorized | ReasonRequired | ReasonTooLong
    | TitleRequired | TitleTooLong | BodyRequired | BodyTooLong
    | TooManyLinks | LinkIncomplete | LinkLabelTooLong | LinkUrlTooLong | LinkNotHttp
    | BadPicture(picture: PictureError)
    | Thrown

  // ----- Content -----

  function SanitizeLink(l: Link): Result<Option<Link>, Error> {
    var name, url := Trim(l.name), Trim(l.url);
    if name == "" && url == "" then Ok(None)
    else if name == "" || url == "" then Err(LinkIncomplete)
    else if Length(name) > LINK_LABEL_MAX then Err(LinkLabelTooLong)
    else if Length(url) > LINK_URL_MAX then Err(LinkUrlTooLong)
    else if !HttpUrl(url) then Err(LinkNotHttp)
    else Ok(Some(Link(name, url)))
  }

  function SanitizedLinks(links: seq<Link>): Result<seq<Link>, Error> {
    if links == [] then Ok([])
    else
      var earlier :- SanitizedLinks(links[..|links| - 1]);
      var last :- SanitizeLink(links[|links| - 1]);
      Ok(if last.Some? then earlier + [last.value] else earlier)
  }

  function Sanitized(c: Content, allowEmptyBody: bool): Result<Content, Error> {
    var title, body := Trim(c.title), Trim(c.body);
    if title == "" then Err(TitleRequired)
    else if Length(title) > TITLE_MAX then Err(TitleTooLong)
    else if !allowEmptyBody && body == "" then Err(BodyRequired)
    else if Length(body) > BODY_MAX then Err(BodyTooLong)
    else if |c.links| > LINKS_MAX then Err(TooManyLinks)
    else
      var links :- SanitizedLinks(c.links);
      var image := SanitizeImage(c.image);
      if image.Err? then Err(BadPicture(image.error)) else Ok(Content(title, body, links, image.value))
  }

  lemma {:induction false} LinkErrorSticks(links: seq<Link>, n: nat)
    requires n <= |links| && SanitizedLinks(links[..n]).Err?
    ensures SanitizedLinks(links) == SanitizedLinks(links[..n])
    decreases |links|
  {
    if n == |links| {
      assert links[..n] == links;
    } else {
      assert links[..|links| - 1][..n] == links[..n];
      LinkErrorSticks(links[..|links| - 1], n);
    }
  }

  /** The checks in their order; blank link rows are left out in one pass. */
  method SanitizeContent(c: Content, allowEmptyBody: bool) returns (r: Result<Content, Error>)
    ensures r == Sanitized(c, allowEmptyBody)
  {
    hide Trim, Length, HttpUrl, SanitizeImage;
    var title := Trim(c.title);
    if title == "" {
      return Err(TitleRequired);
    }
    if Length(title) > TITLE_MAX {
      return Err(TitleTooLong);
    }
    var body := Trim(c.body);
    if !allowEmptyBody && body == "" {
      return Err(BodyRequired);
    }
    if Length(body) > BODY_MAX {
      return Err(BodyTooLong);
    }
    if |c.links| > LINKS_MAX {
      return Err(TooManyLinks);
    }
    var links: seq<Link> := [];
    for i := 0 to |c.links|
      invariant SanitizedLinks(c.links[..i]) == Ok(links)
    {
      assert c.links[..i + 1][..i] == c.links[..i];
      var one := SanitizeLink(c.links[i]);
      if one.Err? {
        LinkErrorSticks(c.links, i + 1);
        return Err(one.error);
      }
      if one.value.Some? {
        links := links + [one.value.value];
      }
    }
    assert c.links[..|c.links|] == c.links;
    var image := SanitizeImage(c.image);
    if image.Err? {
      return Err(BadPicture(image.error));
    }
    return Ok(Content(title, body, links, image.value));
  }

  // ----- What was accepted is accepted again as it is -----

  predicate SettledLink(l: Link) {
    SanitizeLink(l) == Ok(Some(l))
  }

  lemma LinkSettles(l: Link)
    requires SanitizeLink(l).Ok? && SanitizeLink(l).value.Some?
    ensures SettledLink(SanitizeLink(l).value.value)
  {
    hide Trim, Length, HttpUrl;
    TrimTwice(l.name);
    TrimTwice(l.url);
  }

  lemma {:induction false} LinksSettle(links: seq<Link>)
    requires SanitizedLinks(links).Ok?
    ensures |SanitizedLinks(links).value| <= |links|
    ensures forall i :: 0 <= i < |SanitizedLinks(links).value| ==> SettledLink(SanitizedLinks(links).value[i])
  {
    if links != [] {
      hide SanitizeLink, SettledLink;
      var last := links[|links| - 1];
      LinksSettle(links[..|links| - 1]);
      if SanitizeLink(last).value.Some? {
        LinkSettles(last);
      }
    }
  }

  lemma {:induction false} SettledLinksStay(links: seq<Link>)
    requires forall i :: 0 <= i < |links| ==> SettledLink(links[i])
    ensures SanitizedLinks(links) == Ok(links)
  {
    if links != [] {
      var init, last := links[..|links| - 1], links[|links| - 1];
      assert SanitizeLink(last) == Ok(Some(last)) by {
        hide SanitizeLink;
        assert SettledLink(last);
      }
      hide SanitizeLink, SettledLink;
      SettledLinksStay(init);
      assert init + [last] == links;
    }
  }

  lemma SanitizedSettles(c: Content, allowEmptyBody: bool)
    requires Sanitized(c, allowEmptyBody).Ok?
    ensures var out := Sanitized(c, allowEmptyBody).value;
            && Sanitized(out, allowEmptyBody) == Ok(out)
            && (out.body != "" ==> forall allow :: Sanitized(out, allow) == Ok(out))
            && (out.body == "" ==> allowEmptyBody)
  {
    hide Trim, Length, SanitizedLinks, SanitizeImage, SettledLink;
    TrimTwice(c.title);
    TrimTwice(c.body);
    LinksSettle(c.links);
    SettledLinksStay(SanitizedLinks(c.links).value);
    SanitizeImageSettles(c.image);
  }

  // ----- What content becomes, and when it is refused -----

  /** The links of a form, its blank rows left out, trimmed, in their order. */
  function Trims(links: seq<Link>): seq<Link> {
    if links == [] then []
    else
      (if Trim(links[0].name) == "" && Trim(links[0].url) == "" then [] else [Link(Trim(links[0].name), Trim(links[0].url))]) +
      Trims(links[1..])
  }

  lemma {:induction false} TrimsAppend(links: seq<Link>, l: Link)
    ensures Trims(links + [l]) == Trims(links) + Trims([l])
    ensures Trims([l]) == if Trim(l.name) == "" && Trim(l.url) == "" then [] else [Link(Trim(l.name), Trim(l.url))]
  {
    hide Trim, Trims;
    TrimsStep([l]);
    if links == [] {
      assert [] + [l] == [l];
      TrimsStep(links);
    } else {
      TrimsAppend(links[1..], l);
      assert (links + [l])[1..] == links[1..] + [l];
      TrimsStep(links);
      TrimsStep(links + [l]);
    }
  }

  lemma TrimsStep(links: seq<Link>)
    ensures Trims(links) ==
            if links == [] then []
            else (if Trim(links[0].name) == "" && Trim(links[0].url) == "" then [] else [Link(Trim(links[0].name), Trim(links[0].url))])
                 + Trims(links[1..])
    ensures |links| == 1 ==> Trims(links[1..]) == []
  {
  }

  /** A link with one half missing, or too long, or not of the web. */
  predicate BadLink(l: Link) {
    var name, url := Trim(l.name), Trim(l.url);
    !(name == "" && url == "") && (name == "" || url == "" || Length(name) > 100 || Length(url) > 500 || !HttpUrl(url))
  }

  lemma {:induction false} LinksIff(links: seq<Link>)
    ensures SanitizedLinks(links).Ok? <==> forall i :: 0 <= i < |links| ==> !BadLink(links[i])
    ensures SanitizedLinks(links).Ok? ==> SanitizedLinks(links).value == Trims(links)
  {
    if links != [] {
      var init, last := links[..|links| - 1], links[|links| - 1];
      assert links == init + [last];
      LinksIff(init);
      LinkIff(last);
      TrimsAppend(init, last);
      hide SanitizeLink, BadLink, Trims;
    }
  }

  lemma LinkIff(l: Link)
    ensures SanitizeLink(l).Ok? <==> !BadLink(l)
    ensures SanitizeLink(l).Ok? ==> Trims([l]) == if SanitizeLink(l).value.Some? then [SanitizeLink(l).value.value] else []
  {
    hide Trim, Length, HttpUrl;
    TrimsAppend([], l);
  }

  /**
    Content is taken when it has a title of at most 200 characters, a body of at most 5000 that is missing only
    where that is allowed, at most five link rows with none of them bad, and a picture that passes; and it is kept
    trimmed, its blank links left out.
   */
  lemma ContentIff(c: Content, allowEmptyBody: bool)
    ensures var r, title, body := Sanitized(c, allowEmptyBody), Trim(c.title), Trim(c.body);
            && (r.Ok? <==>
                  && title != "" && Length(title) <= 200 && (allowEmptyBody || body != "") && Length(body) <= 5000
                  && |c.links| <= 5 && (forall i :: 0 <= i < |c.links| ==> !BadLink(c.links[i])) && SanitizeImage(c.image).Ok?)
            && (r.Ok? ==> r.value == Content(title, body, Trims(c.links), SanitizeImage(c.image).value))
            && (r == Err(TitleRequired) <==> title == "")
            && (r == Err(TitleTooLong) <==> title != "" && Length(title) > 200)
  {
    hide Trim, Length, BadLink, SanitizeImage, Trims;
    LinksIff(c.links);
    LinkErrors(c.links);
    hide SanitizedLinks;
  }

  lemma {:induction false} LinkErrors(links: seq<Link>)
    ensures SanitizedLinks(links).Err? ==> !SanitizedLinks(links).error.TitleRequired? && !SanitizedLinks(links).error.TitleTooLong?
  {
    if links != [] {
      hide Trim, Length, HttpUrl;
      LinkErrors(links[..|links| - 1]);
    }
  }

  // ----- The requests -----

  /** A field left out is not touched; an address or description of `None` is taken away. */
  datatype Patch = Patch(
    title: Option<string>, body: Option<string>, links: Option<seq<Link>>,
    imageUrl: Option<Option<string>>, imageAlt: Option<Option<string>>)

  const NO_PATCH := Patch(None, None, None, None, None)

  datatype Fault = AtNothing | AtEvent | AtSave

  datatype Request =
    | Update(editor: string, admin: bool, patch: Patch, now: int, fault: Fault)
    | Remove(who: string, reason: string, now: int, fault: Fault)
    | Restore(who: string, now: int, fault: Fault)

  datatype Hub = Hub(record: Record, events: seq<Event>)

  /** An announcement as it is made: published at once, hand-written or synced. */
  function Created(raw: Content, author: string, synced: bool): Result<Record, Error> {
    var content :- Sanitized(raw, synced);
    Ok(Record(content, author, synced, None, 0, None))
  }

  function Patched(c: Content, p: Patch): Content {
    Content(
      if p.title.Some? then p.title.value else c.title,
      if p.body.Some? then p.body.value else c.body,
      if p.links.Some? then p.links.value else c.links,
      Picture(if p.imageUrl.Some? then p.imageUrl.value else c.image.url,
              if p.imageAlt.Some? then p.imageAlt.value else c.image.alt))
  }

  function LinkJson(l: Link): Json.Json {
    Json.Object([Json.Field("label", Json.Str(l.name)), Json.Field("url", Json.Str(l.url))])
  }

  /** Links as they are written to the announcement's state, and as a patch sends them. */
  function LinksJson(links: seq<Link>): Json.Json {
    Json.List(seq(|links|, i requires 0 <= i < |links| => LinkJson(links[i])))
  }

  predicate LinksDiffer(c: Content, p: Patch) {
    p.links.Some? && !Json.Alike(LinksJson(c.links), LinksJson(p.links.value))
  }

  lemma LinkOutOfOrder(l: Link)
    ensures !Json.InOrder(LinkJson(l))
  {
    var fields := LinkJson(l).fields;
    assert fields[0].key == "label" && fields[1].key == "url" && !Json.KeyBefore("label", "url");
    hide Json.KeyBefore;
    assert !Json.FieldsInOrder(fields);
  }

  /** Links never read as the ones stored: a link's address is sent after its label and kept before it. */
  lemma LinksAlikeIff(stored: seq<Link>, sent: seq<Link>)
    ensures Json.Alike(LinksJson(stored), LinksJson(sent)) <==> stored == [] && sent == []
  {
    hide LinkJson, Json.ReadBack;
    if sent != [] {
      LinkOutOfOrder(sent[0]);
      assert !Json.AllInOrder(LinksJson(sent).items);
      Json.OutOfOrderAlwaysDiffers(LinksJson(stored), LinksJson(sent));
    } else {
      assert LinksJson(sent).items == [];
      ListReadBack(LinksJson(stored).items);
    }
  }

  lemma ListReadBack(items: seq<Json.Json>)
    ensures Json.ReadBack(Json.List(items)) == Json.List(Json.AllReadBack(items))
    ensures Json.AllReadBack(items) == [] <==> items == []
  {
  }

  /** The fields in which the patch differs from what is stored; links by their JSON text. */
  function EditedFields(c: Content, p: Patch): seq<Field> {
    var next := Patched(c, p);
    (if next.title != c.title then [Title] else [])
    + (if next.body != c.body then [Body] else [])
    + (if LinksDiffer(c, p) then [Links] else [])
    + (if next.image != c.image then [Image] else [])
  }

  function AfterChange(h: Hub, changed: Record, e: Event, fault: Fault): (Hub, Result<seq<Field>, Error>) {
    match fault
    case AtEvent => (h, Err(Thrown))
    case AtSave => (Hub(h.record, h.events + [e]), Err(Thrown))
    case AtNothing => (Hub(changed, h.events + [e]), Ok(if e.Edited? then e.fields else []))
  }

  /** Nothing to change, nothing to announce; the save still happens. */
  function Unchanged(h: Hub, fault: Fault): (Hub, Result<seq<Field>, Error>) {
    (h, if fault.AtSave? then Err(Thrown) else Ok([]))
  }

  function AfterUpdate(h: Hub, editor: string, admin: bool, p: Patch, now: int, fault: Fault)
    : (Hub, Result<seq<Field>, Error>)
  {
    var r := h.record;
    var fields := EditedFields(r.content, p);
    if !admin && r.author != editor then (h, Err(NotAuthorized))
    else if fields == [] then Unchanged(h, fault)
    else
      var content := Sanitized(Patched(r.content, p), false);
      if content.Err? then (h, Err(content.error))
      else
        AfterChange(h, r.(content := content.value, lastEditedAt := Some(now), editCount := r.editCount + 1),
                    Edited(fields), fault)
  }

  predicate IsRemoved(r: Record) {
    r.moderation.Some? && r.moderation.value.removed
  }

  function AfterRemove(h: Hub, who: string, reason: string, now: int, fault: Fault): (Hub, Result<seq<Field>, Error>) {
    var why := Trim(reason);
    if why == "" then (h, Err(ReasonRequired))
    else if Length(why) > MODERATION_REASON_MAX then (h, Err(ReasonTooLong))
    else if IsRemoved(h.record) then Unchanged(h, fault)
    else
      AfterChange(h, h.record.(moderation := Some(Moderation(true, now, who, why, None))), Removed(why, who), fault)
  }

  function AfterRestore(h: Hub, who: string, now: int, fault: Fault): (Hub, Result<seq<Field>, Error>) {
    if !IsRemoved(h.record) then Unchanged(h, fault)
    else
      var m := h.record.moderation.value;
      AfterChange(h, h.record.(moderation := Some(m.(removed := false, restoredAt := Some(now)))), Restored(m.reason, who), fault)
  }

  function Handle(h: Hub, req: Request): (Hub, Result<seq<Field>, Error>) {
    match req
    case Update(editor, admin, patch, now, fault) => AfterUpdate(h, editor, admin, patch, now, fault)
    case Remove(who, reason, now, fault) => AfterRemove(h, who, reason, now, fault)
    case Restore(who, now, fault) => AfterRestore(h, who, now, fault)
  }

  // ----- What each request leaves -----

  /** Made, an announcement is its author's, never edited and never removed. */
  lemma CreatedIs(raw: Content, author: string, synced: bool)
    ensures Created(raw, author, synced).Ok? <==> Sanitized(raw, synced).Ok?
    ensures Created(raw, author, synced).Ok? ==>
              var r := Created(raw, author, synced).value;
              && r.content == Sanitized(raw, synced).value && r.author == author && (r.synced <==> synced)
              && r.lastEditedAt.None? && r.editCount == 0 && r.moderation.None?
  {
    hide Sanitized;
  }

  /** Only its author and an admin can change one by an edit, and anyone else is told so. */
  lemma OnlyAuthorOrAdmin(h: Hub, editor: string, admin: bool, p: Patch, now: int, fault: Fault)
    ensures var (after, r) := AfterUpdate(h, editor, admin, p, now, fault);
            && (r == Err(NotAuthorized) <==> !admin && editor != h.record.author)
            && (after != h ==> admin || editor == h.record.author)
  {
    var c := Patched(h.record.content, p);
    ContentErrors(c);
    hide Sanitized, EditedFields, Patched;
  }

  lemma ContentErrors(c: Content)
    ensures Sanitized(c, false) != Err(NotAuthorized)
  {
    NoLinkUnauthorized(c.links);
    hide Trim, Length, SanitizedLinks, SanitizeImage;
  }

  lemma {:induction false} NoLinkUnauthorized(links: seq<Link>)
    ensures SanitizedLinks(links) != Err(NotAuthorized)
  {
    if links != [] {
      hide Trim, Length, HttpUrl;
      NoLinkUnauthorized(links[..|links| - 1]);
    }
  }

  /** An edit that goes through: the content as patched and checked, one more edit counted, at its time; the rest as it was. */
  lemma EditLeaves(h: Hub, editor: string, admin: bool, p: Patch, now: int)
    requires admin || editor == h.record.author
    ensures var (after, r) := AfterUpdate(h, editor, admin, p, now, AtNothing);
            var c := h.record.content;
            var checked := Sanitized(Content(Or(p.title, c.title), Or(p.body, c.body), Or(p.links, c.links),
                                             Picture(Or(p.imageUrl, c.image.url), Or(p.imageAlt, c.image.alt))), false);
            && (EditedFields(c, p) == [] ==> after == h && r == Ok([]))
            && (EditedFields(c, p) != [] && checked.Err? ==> after == h && r == Err(checked.error))
            && (EditedFields(c, p) != [] && checked.Ok? ==>
                  && after.record.content == checked.value && after.record.lastEditedAt == Some(now)
                  && after.record.editCount == h.record.editCount + 1
                  && after.record.author == h.record.author && after.record.synced == h.record.synced
                  && after.record.moderation == h.record.moderation)
  {
    hide Sanitized, EditedFields;
  }

  /** A removal needs a reason of at most 500 characters; it is kept, trimmed, with who and when, and told. One already gone stays as it is. */
  lemma RemovalLeaves(h: Hub, who: string, reason: string, now: int)
    ensures var (after, r) := AfterRemove(h, who, reason, now, AtNothing);
            var gone := h.record.moderation.Some? && h.record.moderation.value.removed;
            && (r == Err(ReasonRequired) <==> Trim(reason) == "")
            && (r == Err(ReasonTooLong) <==> Trim(reason) != "" && Length(Trim(reason)) > 500)
            && (r.Err? || gone ==> after == h)
            && (r.Ok? && !gone ==>
                  && after.events == h.events + [Removed(Trim(reason), who)]
                  && after.record == h.record.(moderation := after.record.moderation) && after.record.moderation.Some?
                  && var m := after.record.moderation.value;
                     m.removed && m.removedAt == now && m.removedBy == who && m.reason == Trim(reason) && m.restoredAt.None?)
  {
    hide Trim, Length;
  }

  /** A restoration takes the flag down at its time, keeps who removed it, when and why, and tells it; one that stands stays as it is. */
  lemma RestorationLeaves(h: Hub, who: string, now: int)
    ensures var (after, r) := AfterRestore(h, who, now, AtNothing);
            var gone := h.record.moderation.Some? && h.record.moderation.value.removed;
            && r == Ok([]) && (!gone ==> after == h)
            && (gone ==>
                  && after.events == h.events + [Restored(h.record.moderation.value.reason, who)]
                  && after.record == h.record.(moderation := after.record.moderation) && after.record.moderation.Some?
                  && var was, m := h.record.moderation.value, after.record.moderation.value;
                     && !m.removed && m.restoredAt == Some(now)
                     && m.removedAt == was.removedAt && m.removedBy == was.removedBy && m.reason == was.reason)
  {
  }

  class Announcements {
    var persisted: Record
    var events: seq<Event>

    constructor (r: Record)
      ensures Value() == Hub(r, [])
    {
      persisted, events := r, [];
    }

    function Value(): Hub
      reads this
    {
      Hub(persisted, events)
    }

    /** The patch laid over the content, and the fields in which it differs. */
    static method ApplyPatch(c: Content, p: Patch) returns (fields: seq<Field>, next: Content)
      ensures next == Patched(c, p) && fields == EditedFields(c, p)
    {
      hide LinksJson, Json.Alike;
      fields, next := [], c;
      if p.title.Some? && p.title.value != c.title {
        next := next.(title := p.title.value);
        fields := fields + [Title];
      }
      if p.body.Some? && p.body.value != c.body {
        next := next.(body := p.body.value);
        fields := fields + [Body];
      }
      if p.links.Some? {
        next := next.(links := p.links.value);
        if !Json.Alike(LinksJson(c.links), LinksJson(p.links.value)) {
          fields := fields + [Links];
        }
      }
      if p.imageUrl.Some? {
        next := next.(image := next.image.(url := p.imageUrl.value));
      }
      if p.imageAlt.Some? {
        next := next.(image := next.image.(alt := p.imageAlt.value));
      }
      if next.image != c.image {
        fields := fields + [Image];
      }
    }

    method UpdateAnnouncement(editor: string, admin: bool, p: Patch, now: int, fault: Fault)
      returns (r: Result<seq<Field>, Error>)
      modifies this
      ensures (Value(), r) == AfterUpdate(old(Value()), editor, admin, p, now, fault)
    {
      hide Sanitized, EditedFields, Patched;
      var state := persisted;
      if !admin && state.author != editor {
        return Err(NotAuthorized);
      }
      var fields, next := ApplyPatch(state.content, p);
      if fields == [] {
        return if fault.AtSave? then Err(Thrown) else Ok([]);
      }
      var content := SanitizeContent(next, false);
      if content.Err? {
        return Err(content.error);
      }
      state := state.(content := content.value, lastEditedAt := Some(now), editCount := state.editCount + 1);
      if fault.AtEvent? {
        return Err(Thrown);
      }
      events := events + [Edited(fields)];
      if fault.AtSave? {
        return Err(Thrown);
      }
      persisted := state;
      return Ok(fields);
    }

    method RemoveAnnouncement(who: string, reason: string, now: int, fault: Fault) returns (r: Result<seq<Field>, Error>)
      modifies this
      ensures (Value(), r) == AfterRemove(old(Value()), who, reason, now, fault)
    {
      var state := persisted;
      var why := Trim(reason);
      if why == "" {
        return Err(ReasonRequired);
      }
      if Length(why) > MODERATION_REASON_MAX {
        return Err(ReasonTooLong);
      }
      if !IsRemoved(state) {
        state := state.(moderation := Some(Moderation(true, now, who, why, None)));
        if fault.AtEvent? {
          return Err(Thrown);
        }
        events := events + [Removed(why, who)];
      }
      if fault.AtSave? {
        return Err(Thrown);
      }
      persisted := state;
      return Ok([]);
    }

    method RestoreAnnouncement(who: string, now: int, fault: Fault) returns (r: Result<seq<Field>, Error>)
      modifies this
      ensures (Value(), r) == AfterRestore(old(Value()), who, now, fault)
    {
      var state := persisted;
      if IsRemoved(state) {
        var m := state.moderation.value;
        state := state.(moderation := Some(m.(removed := false, restoredAt := Some(now))));
        if fault.AtEvent? {
          return Err(Thrown);
        }
        events := events + [Restored(m.reason, who)];
      }
      if fault.AtSave? {
        return Err(Thrown);
      }
      persisted := state;
      return Ok([]);
    }
  }

  // ----- Whole runs -----

  function Run(h: Hub, reqs: seq<Request>): Hub
    decreases |reqs|
  {
    if reqs == [] then h else Handle(Run(h, reqs[..|reqs| - 1]), reqs[|reqs| - 1]).0
  }

  /** The content is accepted as it is, with no body only if it was synced; a removal has its reason. */
  predicate Sound(r: Record) {
    && Sanitized(r.content, r.synced) == Ok(r.content)
    && (r.content.body == "" ==> r.synced)
    && (r.moderation.Some? ==> r.moderation.value.reason != "" && Length(r.moderation.value.reason) <= MODERATION_REASON_MAX)
  }

  lemma CreatedIsSound(raw: Content, author: string, synced: bool)
    requires Created(raw, author, synced).Ok?
    ensures Sound(Created(raw, author, synced).value)
  {
    hide Sanitized;
    SanitizedSettles(raw, synced);
  }

  lemma HandleKeepsSound(h: Hub, req: Request)
    requires Sound(h.record)
    ensures Sound(Handle(h, req).0.record)
  {
    hide Sanitized, Patched, EditedFields, Length, Trim;
    match req
    case Update(_, _, p, _, _) =>
      if Sanitized(Patched(h.record.content, p), false).Ok? {
        SanitizedSettles(Patched(h.record.content, p), false);
      }
    case Remove(_, _, _, _) =>
    case Restore(_, _, _) =>
  }

  lemma {:induction false} RunsStaySound(h: Hub, reqs: seq<Request>)
    requires Sound(h.record)
    ensures Sound(Run(h, reqs).record)
    decreases |reqs|
  {
    hide Sound, Handle;
    if reqs != [] {
      RunsStaySound(h, reqs[..|reqs| - 1]);
      HandleKeepsSound(Run(h, reqs[..|reqs| - 1]), reqs[|reqs| - 1]);
    }
  }

  predicate Changed(f: Field, c: Content, d: Content) {
    match f
    case Title => c.title != d.title
    case Body => c.body != d.body
    case Links => c.links != d.links
    case Image => c.image != d.image
  }

  /** Every field an edit really changed is named in its answer, which is what its event says. */
  lemma FieldsCoverChanges(h: Hub, editor: string, admin: bool, p: Patch, now: int, f: Field)
    requires Sound(h.record)
    requires var after := AfterUpdate(h, editor, admin, p, now, AtNothing);
             after.1.Ok? && Changed(f, h.record.content, after.0.record.content)
    ensures var after := AfterUpdate(h, editor, admin, p, now, AtNothing);
            f in after.1.value && after.0.events == h.events + [Edited(after.1.value)]
  {
    hide Trim, Length, SanitizedLinks, SanitizeImage, LinksJson, Json.Alike;
    if p.links.Some? {
      LinksAlikeIff(h.record.content.links, p.links.value);
    }
  }

  /** An edit counts as none exactly when it names no link, sent or stored, and differs in nothing else. */
  lemma CountsAsNoneIff(c: Content, p: Patch)
    ensures EditedFields(c, p) == [] <==>
            && (p.title.Some? ==> p.title.value == c.title) && (p.body.Some? ==> p.body.value == c.body)
            && (p.links.Some? ==> c.links == [] && p.links.value == [])
            && (p.imageUrl.Some? ==> p.imageUrl.value == c.image.url) && (p.imageAlt.Some? ==> p.imageAlt.value == c.image.alt)
  {
    hide LinksJson, Json.Alike;
    if p.links.Some? {
      LinksAlikeIff(c.links, p.links.value);
    }
  }

  /** An announcement's own links sent again change nothing, and yet count as an edit and are announced as one. */
  lemma ResentLinksAreAnEdit(h: Hub, editor: string, now: int)
    requires Sound(h.record) && h.record.content.links != [] && h.record.content.body != ""
    ensures var after := AfterUpdate(h, editor, true, NO_PATCH.(links := Some(h.record.content.links)), now, AtNothing);
            && after.1 == Ok([Links]) && after.0.events == h.events + [Edited([Links])]
            && after.0.record.content == h.record.content && after.0.record.editCount == h.record.editCount + 1
  {
    hide LinksJson, Json.Alike, Trim, Length, SanitizedLinks, SanitizeImage;
    var c := h.record.content;
    LinksAlikeIff(c.links, c.links);
    var p := NO_PATCH.(links := Some(c.links));
    assert Patched(c, p) == c && EditedFields(c, p) == [Links];
    hide Patched, EditedFields;
    SanitizedSettles(c, h.record.synced);
    assert Sanitized(c, false) == Ok(c);
  }

  /** A synced announcement without a body cannot be edited in any field until it is given one. */
  lemma NoBodyNoEdit(h: Hub, editor: string, admin: bool, p: Patch, now: int, fault: Fault)
    requires Sound(h.record) && h.record.content.body == ""
    requires EditedFields(h.record.content, p) != [] && (p.body.None? || Trim(p.body.value) == "")
    ensures AfterUpdate(h, editor, admin, p, now, fault).0 == h
    ensures AfterUpdate(h, editor, admin, p, now, fault).1.Err?
  {
    hide Length, SanitizedLinks, SanitizeImage, EditedFields;
  }

  /** An edit that would pass with the allowance the announcement was made under is accepted exactly when it leaves it a body. */
  lemma EditNeedsBodyIff(h: Hub, editor: string, admin: bool, p: Patch, now: int)
    requires admin || h.record.author == editor
    requires EditedFields(h.record.content, p) != []
    requires Sanitized(Patched(h.record.content, p), h.record.synced).Ok?
    ensures AfterUpdate(h, editor, admin, p, now, AtNothing).1.Ok? <==> Trim(Patched(h.record.content, p).body) != ""
  {
    hide Trim, Length, SanitizedLinks, SanitizeImage, EditedFields, Patched;
  }

  /** The title a body-less announcement was given, and another. */
  predicate OtherTitle(title: string, corrected: string) {
    && Trimmed(title) && title != "" && Length(title) <= TITLE_MAX
    && Trimmed(corrected) && corrected != "" && Length(corrected) <= TITLE_MAX && corrected != title
  }

  /** A synced announcement without a body: made so, and then its title cannot be corrected. */
  lemma SyncedTitleStays(author: string, title: string, corrected: string)
    requires OtherTitle(title, corrected)
    ensures var made := Created(Content(title, "", [], Picture(None, None)), author, true);
            made.Ok? && Sound(made.value) &&
            AfterUpdate(Hub(made.value, []), author, true, NO_PATCH.(title := Some(corrected)), 0, AtNothing)
            == (Hub(made.value, []), Err(BodyRequired))
  {
    TrimIsTrimmed(title);
    TrimIsTrimmed(corrected);
    TrimIsTrimmed("");
    LengthWithin("");
    hide Trim, Length, Sound, Trimmed;
    CreatedIsSound(Content(title, "", [], Picture(None, None)), author, true);
  }

  lemma SyncedTitleCannotBeCorrected(author: string)
    ensures var made := Created(Content("Far", "", [], Picture(None, None)), author, true);
            made.Ok? &&
            AfterUpdate(Hub(made.value, []), author, true, NO_PATCH.(title := Some("Fair")), 0, AtNothing).1 == Err(BodyRequired)
  {
    hide Length, AfterUpdate, Created, OtherTitle;
    FarAndFair();
    SyncedTitleStays(author, "Far", "Fair");
  }

  lemma FarAndFair()
    ensures OtherTitle("Far", "Fair")
  {
    LengthWithin("Far");
    LengthWithin("Fair");
    hide Length;
  }

  lemma {:induction false} LengthWithin(s: string)
    ensures Length(s) <= 2 * |s|
  {
    if s != "" {
      LengthWithin(s[1..]);
    }
  }

  // ----- The events against the record -----

  function EditEvents(events: seq<Event>): nat {
    if events == [] then 0
    else EditEvents(events[..|events| - 1]) + if events[|events| - 1].Edited? then 1 else 0
  }

  /** A request whose event went out and whose save then failed. */
  predicate Lost(h: Hub, req: Request) {
    req.fault.AtSave? && |Handle(h, req).0.events| > |h.events|
  }

  function LostEdits(h: Hub, reqs: seq<Request>): nat
    decreases |reqs|
  {
    if reqs == [] then 0
    else
      var before, req := reqs[..|reqs| - 1], reqs[|reqs| - 1];
      LostEdits(h, before) + if req.Update? && Lost(Run(h, before), req) then 1 else 0
  }

  lemma OneEventMore(events: seq<Event>, e: Event)
    ensures EditEvents(events + [e]) == EditEvents(events) + if e.Edited? then 1 else 0
  {
    assert (events + [e])[..|events|] == events;
  }

  lemma HandleCountsEdits(h: Hub, req: Request)
    ensures var after := Handle(h, req).0;
            EditEvents(after.events) + h.record.editCount
            == EditEvents(h.events) + after.record.editCount + if req.Update? && Lost(h, req) then 1 else 0
  {
    hide EditEvents, Sanitized, EditedFields, Patched, Trim, Length;
    forall e | Handle(h, req).0.events == h.events + [e]
      ensures EditEvents(h.events + [e]) == EditEvents(h.events) + if e.Edited? then 1 else 0
    {
      OneEventMore(h.events, e);
    }
  }

  /** The count of edits is the number of edit events, less those whose save failed. */
  lemma {:induction false} EditsAreCounted(h: Hub, reqs: seq<Request>)
    requires EditEvents(h.events) == h.record.editCount
    ensures EditEvents(Run(h, reqs).events) == Run(h, reqs).record.editCount + LostEdits(h, reqs)
    decreases |reqs|
  {
    hide Handle, EditEvents, Lost;
    if reqs != [] {
      EditsAreCounted(h, reqs[..|reqs| - 1]);
      HandleCountsEdits(Run(h, reqs[..|reqs| - 1]), reqs[|reqs| - 1]);
    }
  }

  /** What the events tell of removals, or that they contradict themselves. */
  datatype Told = Standing | Gone(reason: string) | Contradiction

  /** Removals and restorations must alternate, and a restoration repeat its removal's reason. */
  function Tell(events: seq<Event>): Told {
    if events == [] then Standing
    else
      var before := Tell(events[..|events| - 1]);
      match events[|events| - 1]
      case Edited(_) => before
      case Removed(reason, _) => if before.Standing? then Gone(reason) else Contradiction
      case Restored(reason, _) => if before == Gone(reason) then Standing else Contradiction
  }

  function ToldBy(r: Record): Told {
    if IsRemoved(r) then Gone(r.moderation.value.reason) else Standing
  }

  predicate LostModeration(h: Hub, reqs: seq<Request>)
    decreases |reqs|
  {
    reqs != [] &&
    var before, req := reqs[..|reqs| - 1], reqs[|reqs| - 1];
    LostModeration(h, before) || (!req.Update? && Lost(Run(h, before), req))
  }

  /** The events no longer tell what the record says: they contradict themselves, or the flag is the other way. */
  predicate Astray(h: Hub) {
    Tell(h.events).Contradiction? || (Tell(h.events).Gone? <==> !IsRemoved(h.record))
  }

  lemma OneToldMore(events: seq<Event>, e: Event)
    ensures Tell(events + [e]) ==
            match e
            case Edited(_) => Tell(events)
            case Removed(reason, _) => if Tell(events).Standing? then Gone(reason) else Contradiction
            case Restored(reason, _) => if Tell(events) == Gone(reason) then Standing else Contradiction
  {
    assert (events + [e])[..|events|] == events;
  }

  lemma HandleTells(h: Hub, req: Request)
    ensures Tell(h.events) == ToldBy(h.record) ==>
              var after := Handle(h, req).0;
              if !req.Update? && Lost(h, req) then Astray(after) else Tell(after.events) == ToldBy(after.record)
    ensures Astray(h) ==> Astray(Handle(h, req).0)
  {
    hide Tell, Sanitized, EditedFields, Patched, Trim, Length;
    var after := Handle(h, req).0;
    if |after.events| > |h.events| {
      var e := after.events[|h.events|];
      OneToldMore(h.events, e);
      assert after.events == h.events + [e];
    }
  }

  /**
    Replaying the events gives the removed flag and its reason exactly when no removal or restoration lost
    its save: they alternate, the last one is the flag, and each restoration carries its removal's reason.
   */
  lemma {:induction false} EventsTellIff(h: Hub, reqs: seq<Request>)
    requires Tell(h.events) == ToldBy(h.record)
    ensures Tell(Run(h, reqs).events) == ToldBy(Run(h, reqs).record) <==> !LostModeration(h, reqs)
    ensures LostModeration(h, reqs) ==> Astray(Run(h, reqs))
    decreases |reqs|
  {
    if reqs != [] {
      hide Handle, Tell, Lost;
      EventsTellIff(h, reqs[..|reqs| - 1]);
      HandleTells(Run(h, reqs[..|reqs| - 1]), reqs[|reqs| - 1]);
    }
  }

  /** A removal announced and not saved: the events say it is gone, and the record that it stands. */
  lemma LostRemovalIsTold(r: Record, who: string, now: int)
    requires !IsRemoved(r)
    ensures var out := Run(Hub(r, []), [Remove(who, "Spam", now, AtSave)]);
            out.record == r && Tell(out.events) == Gone("Spam") && ToldBy(out.record) == Standing
  {
    TrimIsTrimmed("Spam");
    LengthWithin("Spam");
    OneToldMore([], Removed("Spam", who));
    assert [Remove(who, "Spam", now, AtSave)][..0] == [];
    assert [] + [Removed("Spam", who)] == [Removed("Spam", who)];
    hide Trim, Length;
  }
}
