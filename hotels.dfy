/**
 * What `Xml2Json` makes of a hotel document. Reading a `Hotel` element
 * gives a `HotelRecord` (the values the converter takes from it); writing
 * the record gives the hotel's JSON object. A decoder reads the objects
 * back, which shows that the mapping keeps every value it takes.
 */
module Hotels {
  import opened Runtime
  import opened Xml
  import opened Json

  datatype AddressRecord = AddressRecord(
    number: Option<string>,
    street: Option<string>,
    city: Option<string>,
    state: Option<string>,
    zip: Option<string>,
    nearestAirport: Option<string>)

  datatype HotelRecord = HotelRecord(
    name: Option<string>,
    phones: seq<string>,
    address: Option<AddressRecord>,
    rating: Option<string>)

  /** The address attributes copied under their own names, in output order. */
  const AddressFields := ["Number", "Street", "City", "State", "Zip"]

  /** The value unless it is null or empty (`!string.IsNullOrEmpty`). */
  function NonEmpty(v: Option<string>): (r: Option<string>)
    ensures r.Some? <==> v.Some? && v.value != ""
    ensures r.Some? ==> r == v
  {
    if v.Some? && v.value != "" then v else None
  }

  /** The text value of an optional element (`element?.Value`). */
  function ValueOf(e: Option<XElement>): Option<string> {
    match e
    case Some(x) => Some(x.value)
    case None => None
  }

  function ReadAddress(a: XElement): AddressRecord {
    AddressRecord(
      Attribute(a, "Number"), Attribute(a, "Street"), Attribute(a, "City"),
      Attribute(a, "State"), Attribute(a, "Zip"),
      NonEmpty(Attribute(a, "NearestAirport")))
  }

  function PhoneValues(phones: seq<XElement>): (r: seq<string>)
    ensures |r| == |phones| && forall k :: 0 <= k < |phones| ==> r[k] == phones[k].value
  {
    seq(|phones|, k requires 0 <= k < |phones| => phones[k].value)
  }

  function ReadHotel(h: XElement): HotelRecord {
    HotelRecord(
      ValueOf(Element(h, "Name")),
      PhoneValues(Elements(h, "Phone")),
      match Element(h, "Address") case Some(a) => Some(ReadAddress(a)) case None => None,
      NonEmpty(Attribute(h, "Rating")))
  }

  /** A string, or JSON null for a missing value. */
  function Nullable(v: Option<string>): JToken {
    match v
    case Some(s) => JString(s)
    case None => JNull
  }

  function Strings(ss: seq<string>): (r: seq<JToken>)
    ensures |r| == |ss| && forall k :: 0 <= k < |ss| ==> r[k] == JString(ss[k])
  {
    seq(|ss|, k requires 0 <= k < |ss| => JString(ss[k]))
  }

  function AddressJson(a: AddressRecord): JToken {
    JObject(
      [ Property("Number", Nullable(a.number)), Property("Street", Nullable(a.street)),
        Property("City", Nullable(a.city)), Property("State", Nullable(a.state)),
        Property("Zip", Nullable(a.zip)) ]
      + match a.nearestAirport
        case Some(s) => [Property("_NearestAirport", JString(s))]
        case None => [])
  }

  function HotelJson(r: HotelRecord): JToken {
    JObject(
      [Property("Name", Nullable(r.name)), Property("Phone", JArray(Strings(r.phones)))]
      + (match r.address case Some(a) => [Property("Address", AddressJson(a))] case None => [])
      + (match r.rating case Some(s) => [Property("_Rating", JString(s))] case None => []))
  }

  /** The records of a sequence of hotels, in order. */
  function ReadHotels(hotels: seq<XElement>): (r: seq<HotelRecord>)
    ensures |r| == |hotels| && forall k :: 0 <= k < |hotels| ==> r[k] == ReadHotel(hotels[k])
  {
    seq(|hotels|, k requires 0 <= k < |hotels| => ReadHotel(hotels[k]))
  }

  /** One object per record, in order. */
  function HotelObjects(records: seq<HotelRecord>): (r: seq<JToken>)
    ensures |r| == |records| && forall k :: 0 <= k < |records| ==> r[k] == HotelJson(records[k])
  {
    seq(|records|, k requires 0 <= k < |records| => HotelJson(records[k]))
  }

  /** One object per hotel, in order. */
  function HotelArray(hotels: seq<XElement>): seq<JToken> {
    HotelObjects(ReadHotels(hotels))
  }

  /** The `{"Hotels": {"Hotel": [...]}}` tree for a document root. */
  function DocumentJson(root: XElement): JToken {
    JObject([Property("Hotels", JObject([Property("Hotel", JArray(HotelArray(Elements(root, "Hotel"))))]))])
  }

  // ---------------------------------------------------------------------
  // Which hotels are converted
  // ---------------------------------------------------------------------

  /** The hotel array of a root whose children are `children`. */
  function HotelsOf(children: seq<XElement>): seq<JToken> {
    HotelArray(Named(children, "Hotel"))
  }

  /** A further child of the root adds one object at the end of the array
      when it is a `Hotel`, and nothing otherwise: the array lists the
      `Hotel` children in document order and ignores every other child. */
  lemma HotelsOfAppend(children: seq<XElement>, c: XElement)
    ensures HotelsOf(children + [c]) ==
      HotelsOf(children) + (if c.name == "Hotel" then [HotelJson(ReadHotel(c))] else [])
  {
    NamedAppend(children, [c], "Hotel");
    assert Named([c], "Hotel") == if c.name == "Hotel" then [c] else [];
  }

  /** A document whose root gains one more child converts to the hotel
      array it had, followed by that child's object when it is a `Hotel`;
      any other child leaves the document's JSON unchanged. */
  lemma DocumentAppendChild(root: XElement, c: XElement)
    ensures DocumentJson(XElement(root.name, root.attributes, root.children + [c], root.value)) ==
      JObject([Property("Hotels", JObject([Property("Hotel", JArray(
        HotelArray(Elements(root, "Hotel"))
        + (if c.name == "Hotel" then [HotelJson(ReadHotel(c))] else [])))]))])
  {
    HotelsOfAppend(root.children, c);
  }

  /** A document without `Hotel` children gives `{"Hotels":{"Hotel":[]}}`. */
  lemma NoHotelsEmptyArray(root: XElement)
    requires forall k :: 0 <= k < |root.children| ==> root.children[k].name != "Hotel"
    ensures DocumentJson(root) == JObject([Property("Hotels", JObject([Property("Hotel", JArray([]))]))])
  {
    NamedNone(root.children, "Hotel");
  }

  // ---------------------------------------------------------------------
  // The properties of one hotel object
  // ---------------------------------------------------------------------

  lemma GetFirst(p: Property, rest: seq<Property>, name: string)
    ensures Get([p] + rest, name) == if p.name == name then Some(p.value) else Get(rest, name)
  {
    assert ([p] + rest)[0] == p && ([p] + rest)[1..] == rest;
  }

  /** The property lookups of a hotel object, in terms of its record. */
  lemma HotelJsonLookups(r: HotelRecord)
    ensures Get(HotelJson(r).properties, "Name") == Some(Nullable(r.name))
    ensures Get(HotelJson(r).properties, "Phone") == Some(JArray(Strings(r.phones)))
    ensures Get(HotelJson(r).properties, "Address") ==
      match r.address case Some(a) => Some(AddressJson(a)) case None => None
    ensures Get(HotelJson(r).properties, "_Rating") ==
      match r.rating case Some(s) => Some(JString(s)) case None => None
  {
    var head := [Property("Name", Nullable(r.name)), Property("Phone", JArray(Strings(r.phones)))];
    var addr := match r.address case Some(a) => [Property("Address", AddressJson(a))] case None => [];
    var rating := match r.rating case Some(s) => [Property("_Rating", JString(s))] case None => [];
    var ps := HotelJson(r).properties;
    assert ps == head + (addr + rating);
    GetAppend(head, addr + rating, "Name");
    GetAppend(head, addr + rating, "Phone");
    GetAppend(head, addr + rating, "Address");
    GetAppend(head, addr + rating, "_Rating");
    GetAppend(addr, rating, "Address");
    GetAppend(addr, rating, "_Rating");
  }

  /** The property lookups of an address object, in terms of its record. */
  lemma AddressJsonLookups(r: AddressRecord)
    ensures Get(AddressJson(r).properties, "Number") == Some(Nullable(r.number))
    ensures Get(AddressJson(r).properties, "Street") == Some(Nullable(r.street))
    ensures Get(AddressJson(r).properties, "City") == Some(Nullable(r.city))
    ensures Get(AddressJson(r).properties, "State") == Some(Nullable(r.state))
    ensures Get(AddressJson(r).properties, "Zip") == Some(Nullable(r.zip))
    ensures Get(AddressJson(r).properties, "_NearestAirport") ==
      match r.nearestAirport case Some(s) => Some(JString(s)) case None => None
  {
    var ps := AddressJson(r).properties;
    GetAt(ps, 0, "Number");
    GetAt(ps, 1, "Street");
    GetAt(ps, 2, "City");
    GetAt(ps, 3, "State");
    GetAt(ps, 4, "Zip");
    if r.nearestAirport.Some? {
      GetAt(ps, 5, "_NearestAirport");
    } else {
      GetAbsent(ps, "_NearestAirport");
    }
  }

  /** Name is the first `Name` child's value, or null without one; Phone is
      every `Phone` child's value, in document order. */
  lemma HotelNameAndPhone(h: XElement)
    ensures Get(HotelJson(ReadHotel(h)).properties, "Name") ==
      Some(if Element(h, "Name").Some? then JString(Element(h, "Name").value.value) else JNull)
    ensures Get(HotelJson(ReadHotel(h)).properties, "Phone").Some?
    ensures var phone := Get(HotelJson(ReadHotel(h)).properties, "Phone").value;
      && phone.JArray?
      && |phone.items| == |Elements(h, "Phone")|
      && forall k :: 0 <= k < |phone.items| ==> phone.items[k] == JString(Elements(h, "Phone")[k].value)
  {
    HotelJsonLookups(ReadHotel(h));
  }

  /** The Address object is present exactly with an `Address` child, and is
      that child's; _Rating carries the `Rating` attribute exactly when it is non-empty. */
  lemma HotelAddressAndRating(h: XElement)
    ensures Get(HotelJson(ReadHotel(h)).properties, "Address") ==
      match Element(h, "Address") case Some(a) => Some(AddressJson(ReadAddress(a))) case None => None
    ensures Get(HotelJson(ReadHotel(h)).properties, "_Rating") ==
      if "Rating" in h.attributes && h.attributes["Rating"] != ""
      then Some(JString(h.attributes["Rating"])) else None
  {
    HotelJsonLookups(ReadHotel(h));
  }

  /** A hotel object's keys come in the order Name, Phone, Address, _Rating,
      the last two only when present. */
  lemma HotelPropertyOrder(h: XElement)
    ensures Names(HotelJson(ReadHotel(h)).properties) ==
      ["Name", "Phone"]
      + (if Element(h, "Address").Some? then ["Address"] else [])
      + (if "Rating" in h.attributes && h.attributes["Rating"] != "" then ["_Rating"] else [])
  {
  }

  /** Number, Street, City, State and Zip are always present, each the
      attribute's value or null; _NearestAirport is present exactly when the
      `NearestAirport` attribute is non-empty, and carries it. */
  lemma AddressProperties(a: XElement)
    ensures Names(AddressJson(ReadAddress(a)).properties) ==
      AddressFields + (if "NearestAirport" in a.attributes && a.attributes["NearestAirport"] != ""
                       then ["_NearestAirport"] else [])
    ensures forall k :: 0 <= k < |AddressFields| ==>
      Get(AddressJson(ReadAddress(a)).properties, AddressFields[k]) == Some(Nullable(Attribute(a, AddressFields[k])))
    ensures Get(AddressJson(ReadAddress(a)).properties, "_NearestAirport") ==
      if "NearestAirport" in a.attributes && a.attributes["NearestAirport"] != ""
      then Some(JString(a.attributes["NearestAirport"])) else None
  {
    AddressJsonLookups(ReadAddress(a));
  }

  // ---------------------------------------------------------------------
  // Reading the objects back
  // ---------------------------------------------------------------------

  function NullableFrom(t: JToken): Option<Option<string>> {
    match t
    case JNull => Some(None)
    case JString(s) => Some(Some(s))
    case _ => None
  }

  /** An optional property: absent, or present with a string. */
  function OptionalFrom(v: Option<JToken>): Option<Option<string>> {
    match v
    case None => Some(None)
    case Some(JString(s)) => Some(Some(s))
    case Some(_) => None
  }

  function StringsFrom(items: seq<JToken>): Option<seq<string>>
    decreases |items|
  {
    if items == [] then Some([])
    else match (items[0], StringsFrom(items[1..]))
      case (JString(s), Some(rest)) => Some([s] + rest)
      case _ => None
  }

  function FieldFrom(ps: seq<Property>, name: string): Option<Option<string>> {
    match Get(ps, name)
    case Some(t) => NullableFrom(t)
    case None => None
  }

  function AddressFrom(t: JToken): Option<AddressRecord> {
    if !t.JObject? then None
    else
      var ps := t.properties;
      match (FieldFrom(ps, "Number"), FieldFrom(ps, "Street"), FieldFrom(ps, "City"),
             FieldFrom(ps, "State"), FieldFrom(ps, "Zip"), OptionalFrom(Get(ps, "_NearestAirport")))
      case (Some(n), Some(s), Some(c), Some(st), Some(z), Some(na)) => Some(AddressRecord(n, s, c, st, z, na))
      case _ => None
  }

  function OptionalAddressFrom(v: Option<JToken>): Option<Option<AddressRecord>> {
    match v
    case None => Some(None)
    case Some(t) => match AddressFrom(t) case Some(a) => Some(Some(a)) case None => None
  }

  function PhonesFrom(v: Option<JToken>): Option<seq<string>> {
    match v
    case Some(JArray(items)) => StringsFrom(items)
    case _ => None
  }

  function HotelFrom(t: JToken): Option<HotelRecord> {
    if !t.JObject? then None
    else
      var ps := t.properties;
      match (FieldFrom(ps, "Name"), PhonesFrom(Get(ps, "Phone")),
             OptionalAddressFrom(Get(ps, "Address")), OptionalFrom(Get(ps, "_Rating")))
      case (Some(n), Some(phones), Some(addr), Some(rating)) => Some(HotelRecord(n, phones, addr, rating))
      case _ => None
  }

  function HotelsFrom(items: seq<JToken>): Option<seq<HotelRecord>>
    decreases |items|
  {
    if items == [] then Some([])
    else match HotelFrom(items[0])
      case None => None
      case Some(h) =>
        match HotelsFrom(items[1..])
        case None => None
        case Some(rest) => Some([h] + rest)
  }

  function DocumentFrom(t: JToken): Option<seq<HotelRecord>> {
    if !t.JObject? then None
    else match Get(t.properties, "Hotels")
      case Some(JObject(inner)) =>
        (match Get(inner, "Hotel") case Some(JArray(items)) => HotelsFrom(items) case _ => None)
      case _ => None
  }

  lemma {:induction false} StringsRoundTrip(ss: seq<string>)
    ensures StringsFrom(Strings(ss)) == Some(ss)
    decreases |ss|
  {
    if ss != [] {
      StringsRoundTrip(ss[1..]);
      assert Strings(ss)[1..] == Strings(ss[1..]);
      assert [ss[0]] + ss[1..] == ss;
    }
  }

  lemma AddressRoundTrip(a: AddressRecord)
    ensures AddressFrom(AddressJson(a)) == Some(a)
  {
    AddressJsonLookups(a);
  }

  /** Every value a hotel record holds is recovered from its JSON object. */
  lemma HotelRoundTrip(r: HotelRecord)
    ensures HotelFrom(HotelJson(r)) == Some(r)
  {
    HotelJsonLookups(r);
    StringsRoundTrip(r.phones);
    if r.address.Some? {
      AddressRoundTrip(r.address.value);
    }
  }

  lemma {:induction false} HotelObjectsRoundTrip(records: seq<HotelRecord>)
    ensures HotelsFrom(HotelObjects(records)) == Some(records)
    decreases |records|
  {
    if records != [] {
      var items := HotelObjects(records);
      HotelObjectsRoundTrip(records[1..]);
      HotelRoundTrip(records[0]);
      assert items[1..] == HotelObjects(records[1..]);
      assert records == [records[0]] + records[1..];
    }
  }

  /** Decoding the converted document gives back the record of every `Hotel`
      child, in document order: the conversion loses none of the values it takes. */
  lemma DocumentRoundTrip(root: XElement)
    ensures DocumentFrom(DocumentJson(root)) == Some(ReadHotels(Elements(root, "Hotel")))
  {
    var items := HotelArray(Elements(root, "Hotel"));
    HotelObjectsRoundTrip(ReadHotels(Elements(root, "Hotel")));
    GetFirst(Property("Hotels", JObject([Property("Hotel", JArray(items))])), [], "Hotels");
    GetFirst(Property("Hotel", JArray(items)), [], "Hotel");
  }
}
