/**
 * The program itself: the process-wide error buffer, `Verification`, which
 * fills it while the validating reader reads a document, `Xml2Json`, which
 * builds the JSON tree of a hotel document, and the call sequence of the
 * entry point.
 */
module ConsoleApp1 {
  import opened Runtime
  import opened Validation
  import opened Xml
  import opened Json
  import opened Hotels

  /** What the entry point writes to the console, without its labels. */
  datatype Output = ReportText(text: string) | JsonTree(json: JToken)

  class Program {
    /** `_validationErrors`: one buffer for the whole process. An instance of
        this class stands for the program's static state. */
    var validationErrors: seq<string>

    constructor ()
      ensures validationErrors == []
    {
      validationErrors := [];
    }

    /** The validation event handler: one entry per event, at the end. */
    method OnValidationEvent(e: ValidationEvent)
      modifies this
      ensures validationErrors == old(validationErrors) + [FormatEvent(e)]
    {
      validationErrors := validationErrors + [FormatEvent(e)];
    }

    /** The validating reader calling the handler for each event it raises
        while advancing to one node, in order. */
    method RaiseEvents(fired: seq<ValidationEvent>)
      modifies this
      ensures validationErrors == old(validationErrors) + FormatAll(fired)
    {
      for j := 0 to |fired|
        invariant validationErrors == old(validationErrors) + FormatAll(fired[..j])
      {
        FormatAllSnoc(fired, j);
        OnValidationEvent(fired[j]);
      }
      assert fired[..|fired|] == fired;
    }

    /** The two catch arms around the read: one entry for the exception,
        telling a well-formedness failure from any other. */
    method Catch(e: Exception)
      modifies this
      ensures validationErrors == old(validationErrors) + [ExceptionEntry(e)]
    {
      match e
      case XmlException(m) =>
        validationErrors := validationErrors + [WellFormednessPrefix + m];
      case OtherException(m) =>
        validationErrors := validationErrors + [UnhandledPrefix + m];
    }

    /** The `try` block and its catch arms: reads the document to the end,
        the handler collecting each validation event, and turns an exception
        that stops the read into one last entry. */
    method ReadDocument(read: seq<ReadStep>)
      modifies this
      ensures validationErrors == old(validationErrors) + Entries(read)
    {
      EntriesFromSuffix(read, 0);
      assert read[0..] == read;
      var i := 0;
      while i < |read| && read[i].Node?
        invariant 0 <= i <= |read|
        invariant validationErrors + EntriesFrom(read, i) == old(validationErrors) + Entries(read)
      {
        AppendAssociative(validationErrors, FormatAll(read[i].fired), EntriesFrom(read, i + 1));
        RaiseEvents(read[i].fired);
        i := i + 1;
      }
      if i < |read| {
        Catch(read[i].exception);
      }
    }

    /** `Verification(xmlUrl, xsdUrl)`: clears the buffer, loads the schema
        (an exception here leaves the call), then reads the document. The
        buffer, and so the report, depends only on this call's schema load
        and read, never on what an earlier call left behind. */
    method Verification(schemaLoad: SchemaLoad, read: seq<ReadStep>) returns (r: Outcome<string>)
      modifies this
      ensures schemaLoad.SchemaFailed? ==> validationErrors == [] && r == Threw(schemaLoad.exception)
      ensures schemaLoad.SchemaLoaded? ==> validationErrors == Entries(read)
      ensures schemaLoad.SchemaLoaded? ==> r == Returned(Report(Entries(read)))
    {
      validationErrors := [];
      if schemaLoad.SchemaFailed? {
        return Threw(schemaLoad.exception);
      }
      ReadDocument(read);
      r := Returned(Report(validationErrors));
    }

    /** The body of the converter's loop for one `Hotel` element: the hotel
        object, filled property by property as the converter does. A
        collection initializer sets distinct names on an empty object, so it
        is written as the list of its properties. */
    static method HotelObject(hotelElem: XElement) returns (hotelObj: JToken)
      ensures hotelObj == HotelJson(ReadHotel(hotelElem))
    {
      ghost var record := ReadHotel(hotelElem);
      var props := [Property("Name", Nullable(ValueOf(Element(hotelElem, "Name"))))];

      var phoneArr := PhoneArray(Elements(hotelElem, "Phone"));
      props := Put(props, "Phone", JArray(phoneArr));
      assert props == [Property("Name", Nullable(record.name)), Property("Phone", JArray(Strings(record.phones)))];

      var addr := Element(hotelElem, "Address");
      if addr.Some? {
        var addrObj := AddressObject(addr.value);
        props := Put(props, "Address", addrObj);
      }

      var rating := Attribute(hotelElem, "Rating");
      if rating.Some? && rating.value != "" {
        props := Put(props, "_Rating", JString(rating.value));
      }
      hotelObj := JObject(props);
    }

    /** The phone array: every `Phone` child's value, added in document order. */
    static method PhoneArray(phones: seq<XElement>) returns (phoneArr: seq<JToken>)
      ensures phoneArr == Strings(PhoneValues(phones))
    {
      phoneArr := [];
      for j := 0 to |phones|
        invariant phoneArr == Strings(PhoneValues(phones[..j]))
      {
        phoneArr := phoneArr + [JString(phones[j].value)];
      }
      assert phones[..|phones|] == phones;
    }

    /** The converter's address object for an `Address` element. */
    static method AddressObject(a: XElement) returns (addrObj: JToken)
      ensures addrObj == AddressJson(ReadAddress(a))
    {
      var props := [
        Property("Number", Nullable(Attribute(a, "Number"))),
        Property("Street", Nullable(Attribute(a, "Street"))),
        Property("City", Nullable(Attribute(a, "City"))),
        Property("State", Nullable(Attribute(a, "State"))),
        Property("Zip", Nullable(Attribute(a, "Zip")))];
      var nearest := Attribute(a, "NearestAirport");
      if nearest.Some? && nearest.value != "" {
        props := Put(props, "_NearestAirport", JString(nearest.value));
      }
      addrObj := JObject(props);
    }

    /** `Xml2Json(xmlUrl)`: an exception while loading the document leaves the
        call; otherwise one hotel object per `Hotel` child of the root, in
        document order, under `Hotels.Hotel`. */
    static method Xml2Json(document: Outcome<XElement>) returns (r: Outcome<JToken>)
      ensures document.Threw? ==> r == Threw(document.exception)
      ensures document.Returned? ==> r == Returned(DocumentJson(document.value))
    {
      if document.Threw? {
        return Threw(document.exception);
      }
      var root := document.value;
      var hotelsArray: seq<JToken> := [];
      var hotels := Elements(root, "Hotel");
      for i := 0 to |hotels|
        invariant hotelsArray == HotelArray(hotels[..i])
      {
        var hotelObj := HotelObject(hotels[i]);
        hotelsArray := hotelsArray + [hotelObj];
      }
      assert hotels[..|hotels|] == hotels;
      var json := Put([], "Hotels", JObject([Property("Hotel", JArray(hotelsArray))]));
      r := Returned(JObject(json));
    }

    /** The entry point's call sequence: validate the valid document, then
        the faulty one, then convert the valid one. An exception from a call
        ends the run there. The faulty document's report is this call's
        alone, whatever the first call left in the buffer. */
    method Run(validSchema: SchemaLoad, validRead: seq<ReadStep>,
               faultySchema: SchemaLoad, faultyRead: seq<ReadStep>,
               document: Outcome<XElement>)
      returns (outputs: seq<Output>, crash: Option<Exception>)
      modifies this
      ensures validSchema.SchemaFailed? ==> outputs == [] && crash == Some(validSchema.exception)
      ensures validSchema.SchemaFailed? ==> validationErrors == []
      ensures validSchema.SchemaLoaded? ==>
        |outputs| >= 1 && outputs[0] == ReportText(Report(Entries(validRead)))
      ensures validSchema.SchemaLoaded? && faultySchema.SchemaFailed? ==>
        |outputs| == 1 && crash == Some(faultySchema.exception)
      ensures validSchema.SchemaLoaded? && faultySchema.SchemaFailed? ==> validationErrors == []
      ensures validSchema.SchemaLoaded? && faultySchema.SchemaLoaded? ==> validationErrors == Entries(faultyRead)
      ensures validSchema.SchemaLoaded? && faultySchema.SchemaLoaded? ==>
        |outputs| >= 2 && outputs[1] == ReportText(Report(Entries(faultyRead)))
      ensures validSchema.SchemaLoaded? && faultySchema.SchemaLoaded? && document.Threw? ==>
        |outputs| == 2 && crash == Some(document.exception)
      ensures validSchema.SchemaLoaded? && faultySchema.SchemaLoaded? && document.Returned? ==>
        |outputs| == 3 && outputs[2] == JsonTree(DocumentJson(document.value)) && crash == None
    {
      outputs, crash := [], None;
      var result := Verification(validSchema, validRead);
      if result.Threw? {
        crash := Some(result.exception);
        return;
      }
      outputs := outputs + [ReportText(result.value)];

      result := Verification(faultySchema, faultyRead);
      if result.Threw? {
        crash := Some(result.exception);
        return;
      }
      outputs := outputs + [ReportText(result.value)];

      var json := Xml2Json(document);
      if json.Threw? {
        crash := Some(json.exception);
        return;
      }
      outputs := outputs + [JsonTree(json.value)];
    }
  }
}
