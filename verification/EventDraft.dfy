/**
  An event's fields checked wherever they come in (packages/civic.event/
  event.ts:63-156, 228-270), the draft a live event fills (store.ts:77-98) and
  what submitting a draft makes of it (draftKind.ts).
 */
module EventDraft {
  import opened Wrappers
  import opened Text
  import opened EventData

  const TITLE_MAX: nat := 120
  const VENUE_MAX: nat := 120
  const ADDRESS_FIELD_MAX: nat := 120
  const LINK_MAX: nat := 500
  const ALT_MAX: nat := 200
  const CAPACITY_MAX: nat := 100000
  const MAX_DURATION_MS: int := 14 * 86400000

  datatype Error =
    | TooLong | StartRequired | EndRequired | EndBeforeStart | TooLongDuration | AlreadyOver
    | LinkInvalid | LocationBoth | LocationRequired | TimeZoneInvalid | CapacityInvalid | ImageInvalid

  /** An address parsed and written out again; `web`: http or https; `ours`: in this type's upload folder. */
  datatype Url = Url(text: string, web: bool, ours: bool)

  /** What the runtime knows of addresses, zones and words. */
  datatype Runtime = Runtime(parse: string -> Option<Url>, knowsZone: string -> bool, hubZone: string, wording: Wording)

  /** A parsed address is written in a form that parses to itself and has no space around it; the hub's zone is one. */
  ghost predicate Normal(rt: Runtime) {
    (forall s :: rt.parse(s).Some? ==>
       var u := rt.parse(s).value; rt.parse(u.text) == Some(u) && Trimmed(u.text) && u.text != "") &&
    Zone(rt, rt.hubZone)
  }

  predicate Zone(rt: Runtime, z: string) {
    z != "" && Trimmed(z) && rt.knowsZone(z)
  }

  // ----- Checks -----

  function Given(v: Option<string>): string {
    if v.Some? then Trim(v.value) else ""
  }

  function CheckText(v: Option<string>, max: nat): Result<string, Error> {
    if Length(Given(v)) > max then Err(TooLong) else Ok(Given(v))
  }

  function OnlineLink(rt: Runtime, v: Option<string>): Result<Option<string>, Error> {
    var s :- CheckText(v, LINK_MAX);
    if s == "" then Ok(None)
    else
      var u := rt.parse(s);
      if u.None? || !u.value.web then Err(LinkInvalid) else Ok(Some(u.value.text))
  }

  function CheckTimes(start: Option<int>, end: Option<int>, now: int): Result<(int, int), Error> {
    if start.None? then Err(StartRequired)
    else if end.None? then Err(EndRequired)
    else if end.value <= start.value then Err(EndBeforeStart)
    else if end.value - start.value > MAX_DURATION_MS then Err(TooLongDuration)
    else if end.value <= now then Err(AlreadyOver)
    else Ok((start.value, end.value))
  }

  function TimeZoneOf(rt: Runtime, v: Option<string>): Result<Option<string>, Error> {
    var z := Given(v);
    if z == "" then Ok(None) else if rt.knowsZone(z) then Ok(Some(z)) else Err(TimeZoneInvalid)
  }

  function CapacityOf(v: Option<int>): Result<Option<nat>, Error> {
    if v.None? then Ok(None)
    else if v.value < 1 || v.value > CAPACITY_MAX then Err(CapacityInvalid)
    else Ok(Some(v.value))
  }

  function ImageOf(rt: Runtime, url: Option<string>, alt: Option<string>): Result<Option<Image>, Error> {
    var u := Given(url);
    if u == "" then Ok(None)
    else
      var parsed := rt.parse(u);
      if parsed.None? || !parsed.value.web || !parsed.value.ours then Err(ImageInvalid)
      else
        var a :- CheckText(alt, ALT_MAX);
        Ok(Some(Image(parsed.value.text, a)))
  }

  /** The fields a form sends for where it is. */
  datatype Where = Where(
    venue: Option<string>, street: Option<string>, locality: Option<string>, region: Option<string>,
    postalCode: Option<string>, country: Option<string>, onlineUrl: Option<string>)

  function Put(v: Option<string>): Result<Option<string>, Error> {
    var s :- CheckText(v, ADDRESS_FIELD_MAX);
    Ok(if s == "" then None else Some(s))
  }

  const NOWHERE: Address := Address(None, None, None, None, None)

  function LocationFrom(rt: Runtime, f: Where): Result<Location, Error> {
    var venue :- CheckText(f.venue, VENUE_MAX);
    var href :- OnlineLink(rt, f.onlineUrl);
    if venue != "" && href.Some? then Err(LocationBoth)
    else if href.Some? then Ok(Link("Online", href.value))
    else if venue == "" then Err(LocationRequired)
    else
      var street :- Put(f.street);
      var locality :- Put(f.locality);
      var region :- Put(f.region);
      var postalCode :- Put(f.postalCode);
      var country :- Put(f.country);
      var address := Address(street, locality, region, postalCode, country);
      Ok(Place(venue, if address == NOWHERE then None else Some(address)))
  }

  /** The fields of a location already in the stored shape. */
  function WhereOf(l: Location): Where {
    match l
    case Link(_, href) => Where(None, None, None, None, None, None, Some(href))
    case Place(name, address) =>
      var a := if address.Some? then address.value else NOWHERE;
      Where(Some(name), a.street, a.locality, a.region, a.postalCode, a.country, None)
  }

  function CheckLocation(rt: Runtime, l: Location): Result<Location, Error> {
    LocationFrom(rt, WhereOf(l))
  }

  // ----- Drafts -----

  datatype Draft = Draft(
    title: string, description: string, start: Option<int>, end: Option<int>, place: Where,
    timeZone: Option<string>, imageUrl: Option<string>, imageAlt: Option<string>, capacity: Option<int>)

  /** The draft's columns for a live event. */
  function DraftColumns(title: string, description: string, s: EventState): Draft {
    Draft(title, description, Some(s.start), Some(s.end), WhereOf(s.location), s.timeZone,
          if s.image.Some? then Some(s.image.value.url) else None,
          if s.image.Some? && s.image.value.alt != "" then Some(s.image.value.alt) else None,
          if s.capacity.Some? then Some(s.capacity.value) else None)
  }

  /** A column read back: blank text is null. */
  function Nullable(v: Option<string>): Option<string> {
    if Given(v) == "" then None else v
  }

  function ReadDraft(d: Draft): Draft {
    var w := d.place;
    d.(place := Where(Nullable(w.venue), Nullable(w.street), Nullable(w.locality), Nullable(w.region),
                      Nullable(w.postalCode), Nullable(w.country), Nullable(w.onlineUrl)),
       timeZone := Nullable(d.timeZone), imageUrl := Nullable(d.imageUrl), imageAlt := Nullable(d.imageAlt))
  }

  /** What a submitted draft is: its words, and a state not yet cancelled. */
  datatype Submission = Submission(title: string, description: string, state: EventState)

  function Build(rt: Runtime, d: Draft, now: int): Result<Submission, Error> {
    var times :- CheckTimes(d.start, d.end, now);
    var location :- LocationFrom(rt, d.place);
    var image :- ImageOf(rt, d.imageUrl, d.imageAlt);
    var zone :- if d.timeZone.Some? && d.timeZone.value != "" then TimeZoneOf(rt, d.timeZone) else Ok(None);
    var capacity :- if d.capacity.Some? && d.capacity.value != 0 then CapacityOf(d.capacity) else Ok(None);
    Ok(Submission(Trim(d.title), Trim(d.description), EventState(times.0, times.1, location, None, zone, image, capacity)))
  }

  /** An event coming into being: the submission checked again, the hub's zone where it has none. */
  function InitializeState(rt: Runtime, s: EventState, now: int): Result<EventState, Error> {
    var times :- CheckTimes(Some(s.start), Some(s.end), now);
    var location :- CheckLocation(rt, s.location);
    var zone :- TimeZoneOf(rt, s.timeZone);
    var image :- ImageOf(rt, if s.image.Some? then Some(s.image.value.url) else None, if s.image.Some? then Some(s.image.value.alt) else None);
    var capacity :- CapacityOf(if s.capacity.Some? then Some(s.capacity.value) else None);
    Ok(EventState(times.0, times.1, location, None, if zone.Some? then zone else Some(rt.hubZone), image, capacity))
  }

  // ----- What each check takes, and what it makes of it -----

  /** Times are taken when the end is after the start by at most 14 days and is not over; else the first that fails is named. */
  lemma TimesIff(start: int, end: int, now: int)
    ensures var r := CheckTimes(Some(start), Some(end), now);
            && (r.Ok? <==> start < end <= start + 1_209_600_000 && now < end)
            && (r.Ok? ==> r.value == (start, end))
            && (r == Err(EndBeforeStart) <==> end <= start)
            && (r == Err(TooLongDuration) <==> end > start + 1_209_600_000)
            && (r == Err(AlreadyOver) <==> start < end <= start + 1_209_600_000 && end <= now)
    ensures CheckTimes(None, Some(end), now) == CheckTimes(None, None, now) == Err(StartRequired)
    ensures CheckTimes(Some(start), None, now) == Err(EndRequired)
  {
  }

  /** A limit is 1 to 100000, or none. */
  lemma CapacityIff(n: int)
    ensures CapacityOf(Some(n)) == if 1 <= n <= 100_000 then Ok(Some(n)) else Err(CapacityInvalid)
    ensures CapacityOf(None) == Ok(None)
  {
  }

  /** A picture is of the web and of this type's own uploads, kept as its address is written out with its description trimmed, of at most 200 characters. */
  lemma ImageIff(rt: Runtime, url: Option<string>, alt: Option<string>)
    ensures var r, u, a := ImageOf(rt, url, alt), Given(url), Given(alt);
            if u == "" then r == Ok(None)
            else
              var ours := rt.parse(u).Some? && rt.parse(u).value.web && rt.parse(u).value.ours;
              && (!ours ==> r == Err(ImageInvalid))
              && (ours && Length(a) <= 200 ==> r == Ok(Some(Image(rt.parse(u).value.text, a))))
              && (ours && Length(a) > 200 ==> r == Err(TooLong))
  {
    hide Trim, Length;
  }

  /** An address of the web of at most 500 characters, or none. */
  predicate LinkFits(rt: Runtime, v: Option<string>) {
    Length(Given(v)) <= 500 && (Given(v) == "" || (rt.parse(Given(v)).Some? && rt.parse(Given(v)).value.web))
  }

  function Cleaned(v: Option<string>): Option<string> {
    if Given(v) == "" then None else Some(Given(v))
  }

  /** The parts of an address within 120 characters each. */
  predicate AddressFits(f: Where) {
    && Length(Given(f.street)) <= 120 && Length(Given(f.locality)) <= 120 && Length(Given(f.region)) <= 120
    && Length(Given(f.postalCode)) <= 120 && Length(Given(f.country)) <= 120
  }

  /**
    Where it is: a venue, or a link, and not both. A venue is kept trimmed with whatever of its address was given;
    a link as it is written out.
   */
  lemma WhereIff(rt: Runtime, f: Where)
    ensures var r, venue, link := LocationFrom(rt, f), Given(f.venue), Given(f.onlineUrl);
            && (Length(venue) > 120 ==> r == Err(TooLong))
            && (Length(venue) <= 120 && !LinkFits(rt, f.onlineUrl) ==> r == Err(if Length(link) > 500 then TooLong else LinkInvalid))
            && (Length(venue) <= 120 && LinkFits(rt, f.onlineUrl) ==>
                  && (venue != "" && link != "" ==> r == Err(LocationBoth))
                  && (venue == "" && link == "" ==> r == Err(LocationRequired))
                  && (venue == "" && link != "" ==> r == Ok(Link("Online", rt.parse(link).value.text)))
                  && (venue != "" && link == "" ==>
                        if !AddressFits(f) then r == Err(TooLong)
                        else
                          var a := Address(Cleaned(f.street), Cleaned(f.locality), Cleaned(f.region), Cleaned(f.postalCode), Cleaned(f.country));
                          r == Ok(Place(venue, if a == Address(None, None, None, None, None) then None else Some(a)))))
  {
    assert Length("") == 0;
    hide Trim, Length;
  }

  /** A draft's empty zone and its limit of nought are none. */
  lemma EmptyIsNone(rt: Runtime, d: Draft, now: int)
    ensures Build(rt, d.(capacity := Some(0)), now) == Build(rt, d.(capacity := None), now)
    ensures Build(rt, d.(timeZone := Some("")), now) == Build(rt, d.(timeZone := None), now)
  {
    hide CheckTimes, LocationFrom, ImageOf, TimeZoneOf, CapacityOf, Trim;
  }

  // ----- What the checks let through -----

  predicate GoodText(s: string, max: nat) {
    Trimmed(s) && s != "" && Length(s) <= max
  }

  predicate GoodField(o: Option<string>) {
    o.Some? ==> GoodText(o.value, ADDRESS_FIELD_MAX)
  }

  /** An address already written out, of the web. */
  predicate GoodLink(rt: Runtime, href: string) {
    Trimmed(href) && href != "" && rt.parse(href).Some? && rt.parse(href).value.text == href && rt.parse(href).value.web
  }

  predicate GoodLocation(rt: Runtime, l: Location) {
    match l
    case Link(name, href) => name == "Online" && GoodLink(rt, href)
    case Place(name, address) =>
      GoodText(name, VENUE_MAX) &&
      (address.Some? ==>
         address.value != NOWHERE && GoodField(address.value.street) && GoodField(address.value.locality) &&
         GoodField(address.value.region) && GoodField(address.value.postalCode) && GoodField(address.value.country))
  }

  predicate GoodImage(rt: Runtime, image: Option<Image>) {
    image.Some? ==>
      GoodLink(rt, image.value.url) && rt.parse(image.value.url).value.ours &&
      Trimmed(image.value.alt) && Length(image.value.alt) <= ALT_MAX
  }

  /** A state the checks have let through. */
  predicate Good(rt: Runtime, s: EventState) {
    s.start < s.end <= s.start + MAX_DURATION_MS && GoodLocation(rt, s.location) && GoodImage(rt, s.image) &&
    (s.timeZone.Some? ==> Zone(rt, s.timeZone.value)) &&
    (s.capacity.Some? ==> 1 <= s.capacity.value <= CAPACITY_MAX)
  }

  lemma CheckedText(v: Option<string>, max: nat)
    ensures CheckText(v, max).Ok? ==> Trimmed(CheckText(v, max).value) && Length(CheckText(v, max).value) <= max
  {
    if v.Some? {
      TrimIsTrimmed(v.value);
    }
  }

  lemma GoodTextChecks(s: string, max: nat)
    requires Trimmed(s)
    ensures Given(Some(s)) == s
    ensures Length(s) <= max ==> CheckText(Some(s), max) == Ok(s)
    ensures Length(s) > max ==> CheckText(Some(s), max) == Err(TooLong)
  {
    TrimIsTrimmed(s);
  }

  lemma LocationFromGood(rt: Runtime, f: Where)
    requires Normal(rt)
    ensures LocationFrom(rt, f).Ok? ==> GoodLocation(rt, LocationFrom(rt, f).value)
  {
    hide Trim, Trimmed, Length, CheckText;
    CheckedText(f.venue, VENUE_MAX);
    CheckedText(f.onlineUrl, LINK_MAX);
    CheckedText(f.street, ADDRESS_FIELD_MAX);
    CheckedText(f.locality, ADDRESS_FIELD_MAX);
    CheckedText(f.region, ADDRESS_FIELD_MAX);
    CheckedText(f.postalCode, ADDRESS_FIELD_MAX);
    CheckedText(f.country, ADDRESS_FIELD_MAX);
  }

  lemma ImageOfGood(rt: Runtime, url: Option<string>, alt: Option<string>)
    requires Normal(rt)
    ensures ImageOf(rt, url, alt).Ok? ==> GoodImage(rt, ImageOf(rt, url, alt).value)
  {
    hide Trim, Trimmed, Length, CheckText;
    CheckedText(alt, ALT_MAX);
  }

  lemma TimeZoneOfGood(rt: Runtime, v: Option<string>)
    ensures TimeZoneOf(rt, v).Ok? && TimeZoneOf(rt, v).value.Some? ==> Zone(rt, TimeZoneOf(rt, v).value.value)
  {
    if v.Some? {
      TrimIsTrimmed(v.value);
    }
  }

  /** Every way a state comes in leaves it good. */
  lemma StatesComeInGood(rt: Runtime, d: Draft, s: EventState, now: int)
    requires Normal(rt)
    ensures Build(rt, d, now).Ok? ==> Good(rt, Build(rt, d, now).value.state)
    ensures InitializeState(rt, s, now).Ok? ==> Good(rt, InitializeState(rt, s, now).value)
  {
    hide Trim, Trimmed, Length, CheckText, LocationFrom, ImageOf, TimeZoneOf, GoodLocation, GoodImage;
    LocationFromGood(rt, d.place);
    LocationFromGood(rt, WhereOf(s.location));
    ImageOfGood(rt, d.imageUrl, d.imageAlt);
    ImageOfGood(rt, if s.image.Some? then Some(s.image.value.url) else None, if s.image.Some? then Some(s.image.value.alt) else None);
    TimeZoneOfGood(rt, d.timeZone);
    TimeZoneOfGood(rt, s.timeZone);
  }

  // ----- Fixed points -----

  /** Whether a location can be checked again: a place always, a link when what it was written out as is not too long. */
  predicate Rechecks(l: Location) {
    l.Link? ==> Length(l.href) <= LINK_MAX
  }

  lemma LinkAgain(rt: Runtime, href: string)
    requires GoodLink(rt, href)
    ensures Given(Some(href)) == href
    ensures OnlineLink(rt, Some(href)) == if Length(href) <= LINK_MAX then Ok(Some(href)) else Err(TooLong)
    ensures OnlineLink(rt, None) == Ok(None)
  {
    GoodTextChecks(href, LINK_MAX);
    assert Length("") == 0;
    hide Trim, Trimmed, Length;
  }

  lemma PutAgain(o: Option<string>)
    requires GoodField(o)
    ensures Put(o) == Ok(o) && Nullable(o) == o
  {
    if o.Some? {
      GoodTextChecks(o.value, ADDRESS_FIELD_MAX);
    } else {
      assert Length("") == 0;
    }
    hide Trim, Trimmed, Length;
  }

  /**
    A location that came through the checks comes through them again unchanged,
    from its stored shape or by way of a draft's columns, exactly when it is not
    a link longer written out than a link may be typed.
   */
  lemma LocationAgainIff(rt: Runtime, l: Location)
    requires GoodLocation(rt, l)
    ensures CheckLocation(rt, l) == if Rechecks(l) then Ok(l) else Err(TooLong)
    ensures ReadWhere(WhereOf(l)) == WhereOf(l)
  {
    assert Length("") == 0;
    match l
    case Link(name, href) =>
      LinkAgain(rt, href);
    case Place(name, address) =>
      GoodTextChecks(name, VENUE_MAX);
      var a := if address.Some? then address.value else NOWHERE;
      PutAgain(a.street);
      PutAgain(a.locality);
      PutAgain(a.region);
      PutAgain(a.postalCode);
      PutAgain(a.country);
      hide Trim, Trimmed, Length, Put;
  }

  function ReadWhere(w: Where): Where {
    Where(Nullable(w.venue), Nullable(w.street), Nullable(w.locality), Nullable(w.region),
          Nullable(w.postalCode), Nullable(w.country), Nullable(w.onlineUrl))
  }

  lemma ImageAgain(rt: Runtime, image: Option<Image>)
    requires GoodImage(rt, image)
    ensures var url := if image.Some? then Some(image.value.url) else None;
            var alt := if image.Some? && image.value.alt != "" then Some(image.value.alt) else None;
            ImageOf(rt, Nullable(url), Nullable(alt)) == Ok(image)
  {
    assert Length("") == 0;
    if image.Some? {
      GoodTextChecks(image.value.url, LINK_MAX);
      GoodTextChecks(image.value.alt, ALT_MAX);
    }
    hide Trim, Trimmed, Length;
  }

  lemma ZoneAgain(rt: Runtime, zone: Option<string>)
    requires zone.Some? ==> Zone(rt, zone.value)
    ensures Nullable(zone) == zone
    ensures zone.Some? ==> TimeZoneOf(rt, zone) == Ok(zone)
  {
    if zone.Some? {
      GoodTextChecks(zone.value, 0);
    }
    hide Trim, Trimmed, Length;
  }

  /**
    Opening an upcoming event for editing and saving it untouched: what is built
    is the event itself (its words trimmed) exactly when its location can be
    checked again; otherwise the save is refused as too long.
   */
  lemma EditUntouchedIff(rt: Runtime, title: string, description: string, s: EventState, now: int)
    requires Good(rt, s) && s.cancelled.None? && now < s.end
    ensures Build(rt, ReadDraft(DraftColumns(title, description, s)), now) ==
              if Rechecks(s.location) then Ok(Submission(Trim(title), Trim(description), s)) else Err(TooLong)
  {
    LocationAgainIff(rt, s.location);
    ImageAgain(rt, s.image);
    ZoneAgain(rt, s.timeZone);
    hide Trim, Trimmed, Length, LocationFrom, ImageOf, TimeZoneOf, GoodLocation, GoodImage, Zone, Nullable, Rechecks, WhereOf;
    var d := ReadDraft(DraftColumns(title, description, s));
    assert d.place == WhereOf(s.location);
  }

  /** A good state is brought into being as it is, not cancelled, in the hub's zone when it has none of its own. */
  lemma InitializedIs(rt: Runtime, s: EventState, now: int)
    requires Good(rt, s) && now < s.end
    ensures InitializeState(rt, s, now) ==
            if !Rechecks(s.location) then Err(TooLong)
            else Ok(s.(cancelled := None, timeZone := if s.timeZone.Some? then s.timeZone else Some(rt.hubZone)))
  {
    LocationAgainIff(rt, s.location);
    ImageGivenAgain(rt, s.image);
    ZoneAgain(rt, s.timeZone);
    NoZone(rt);
    hide Trim, Trimmed, Length, CheckLocation, ImageOf, TimeZoneOf, GoodLocation, GoodImage, Zone, Rechecks;
  }

  lemma NoZone(rt: Runtime)
    ensures TimeZoneOf(rt, None) == Ok(None)
  {
  }

  lemma ImageGivenAgain(rt: Runtime, image: Option<Image>)
    requires GoodImage(rt, image)
    ensures ImageOf(rt, if image.Some? then Some(image.value.url) else None, if image.Some? then Some(image.value.alt) else None) == Ok(image)
  {
    if image.Some? {
      GoodTextChecks(image.value.url, LINK_MAX);
      GoodTextChecks(image.value.alt, ALT_MAX);
    }
    hide Trim, Trimmed, Length;
  }
}
