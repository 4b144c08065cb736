/** What an event is (packages/civic.event/event.ts) and its row on the calendar (store.ts). */
module EventData {
  import opened Wrappers
  import opened Text
  import Json

  datatype Address = Address(
    street: Option<string>, locality: Option<string>, region: Option<string>, postalCode: Option<string>, country: Option<string>)

  datatype Location = Place(name: string, address: Option<Address>) | Link(name: string, href: string)

  datatype Image = Image(url: string, alt: string)

  datatype Cancellation = Cancellation(at: int, reason: string)

  /** Times are instants, in milliseconds. */
  datatype EventState = EventState(
    start: int, end: int, location: Location, cancelled: Option<Cancellation>,
    timeZone: Option<string>, image: Option<Image>, capacity: Option<nat>)

  datatype CalendarRow = CalendarRow(
    processId: string, title: string, description: string, start: int, end: int, location: Location,
    cancelled: bool, archived: bool, imageUrl: Option<string>, imageAlt: Option<string>,
    timeZone: Option<string>, capacity: Option<nat>)

  /** What the hub makes of words: a text without its markup and spacing, and a time as people read it. */
  datatype Wording = Wording(substanceOf: string -> string, whenText: (int, int, string) -> string)

  // ----- As they are written to the process's state -----

  function FieldIfAny(key: string, value: Option<string>): seq<Json.Field> {
    if value.Some? then [Json.Field(key, Json.Str(value.value))] else []
  }

  function AddressJson(a: Address): Json.Json {
    Json.Object([Json.Field("type", Json.Str("PostalAddress"))] +
                FieldIfAny("streetAddress", a.street) + FieldIfAny("addressLocality", a.locality) +
                FieldIfAny("addressRegion", a.region) + FieldIfAny("postalCode", a.postalCode) + FieldIfAny("addressCountry", a.country))
  }

  function LocationJson(l: Location): Json.Json {
    match l
    case Link(name, href) =>
      Json.Object([Json.Field("type", Json.Str("Link")), Json.Field("name", Json.Str(name)), Json.Field("href", Json.Str(href))])
    case Place(name, address) =>
      Json.Object([Json.Field("type", Json.Str("Place")), Json.Field("name", Json.Str(name))] +
                  if address.Some? then [Json.Field("address", AddressJson(address.value))] else [])
  }

  function ImageJson(i: Option<Image>): Json.Json {
    if i.None? then Json.Null
    else Json.Object([Json.Field("url", Json.Str(i.value.url)), Json.Field("alt", Json.Str(i.value.alt))])
  }

  lemma KeysOutOfOrder()
    ensures !Json.KeyBefore("type", "name") && !Json.KeyBefore("url", "alt")
  {
    assert Less("name", "type") && Less("alt", "url");
  }

  /** A location never reads as the one stored, the same one least of all: its type is sent before its name and kept after it. */
  lemma LocationNeverAlike(stored: Location, sent: Location)
    ensures !Json.Alike(LocationJson(stored), LocationJson(sent))
  {
    KeysOutOfOrder();
    var fields := LocationJson(sent).fields;
    assert fields[0].key == "type" && fields[1].key == "name";
    hide Json.KeyBefore;
    Json.OutOfOrderAlwaysDiffers(LocationJson(stored), LocationJson(sent));
  }

  /** Nor a picture; only having none reads as having none. */
  lemma PicturesAlikeIff(stored: Option<Image>, sent: Option<Image>)
    ensures Json.Alike(ImageJson(stored), ImageJson(sent)) <==> stored.None? && sent.None?
  {
    if sent.Some? {
      KeysOutOfOrder();
      var fields := ImageJson(sent).fields;
      assert fields[0].key == "url" && fields[1].key == "alt";
      hide Json.KeyBefore;
      Json.OutOfOrderAlwaysDiffers(ImageJson(stored), ImageJson(sent));
    }
  }
}
