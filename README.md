# Hotel XML validation and conversion, modelled in Dafny

`ConsoleApp1.Program` is a console program (`submission.cs`) with two operations:

- `Verification` validates an XML document against an XSD schema. It collects every validation event, and an exception that stops the read, in the process-wide buffer `_validationErrors`. It returns `"No Error"` or the entries joined with `" | "`.
- `Xml2Json` turns a hotel document into the JSON tree `{"Hotels": {"Hotel": [...]}}`. It has one object per `Hotel` child of the root, with the keys `Name`, `Phone`, `Address` and `_Rating`.

`Main` validates the valid document, then the faulty one, then converts the valid one.

The model has seven modules:

- `Runtime`: `Option`, the two kinds of exception the catch arms tell apart, and an `Outcome` for a call that returns or throws.
- `Text`: decimal rendering of integers with its parser, first-occurrence search, and `string.Join`.
- `Validation`: how the validating reader works and what it produces.
  - The `try` block is given as a sequence of `ReadStep`s. A step is the events raised while the reader advances to one node, or the exception that ends the `try` block, whether it comes from the download, the reader's creation or a `Read()`. A `Read()` that raises events and then throws is a `Node` step followed by a `Throw` step.
  - Schema loading is given as a `SchemaLoad`.
  - `Entries` is the content of the buffer after one read. `Report` is the returned string. The lemmas relate both to reference descriptions of a read (`NoThrow`, `AllFired`, `Silent`), and one lemma parses an entry back into its event.
- `Xml`: an abstract `XElement` (name, attribute map, ordered children, text value), with `Elements`, `Element` and `Attribute` as LINQ to XML defines them.
- `Json`: an abstract `JToken` whose objects keep their properties in insertion order. `Put` models the indexer assignment `obj[name] = value`: it replaces an existing property or appends a new one.
- `Hotels`: the conversion as functions. Reading a `Hotel` element gives a `HotelRecord`, and writing that record gives the hotel object. A decoder reads the objects back, which proves the conversion keeps every value it takes.
- `ConsoleApp1`: class `Program`.
  - Its field `validationErrors` is the static buffer; an instance of the class stands for the program's static state.
  - Its methods follow the source step by step: the event handler, the read loop, the catch arms, `Verification`, the hotel loop of `Xml2Json` and the call sequence of `Main`.
  - Each method is proved against the functions of `Validation` and `Hotels`.

The code keeps one static list `_validationErrors` and clears it at the start of every call, and the model follows the code. `Verification`'s contract shows that the result still depends only on the current call. The code writes the well-formedness prefix with a non-breaking hyphen (U+2011), and the model keeps that character.

## Model

| member | source | states |
|---|---|---|
| ConsoleApp1.Program.constructor | submission.cs:21 | The error buffer starts empty. |
| ConsoleApp1.Program.OnValidationEvent | submission.cs:60-63 | The handler appends exactly one entry, `Line L, Pos P: message`, at the end of the buffer. Nothing else changes. |
| ConsoleApp1.Program.RaiseEvents | submission.cs:71-74 | While the reader advances to one node, the buffer gains the entries of that node's events, in the order they were raised. |
| ConsoleApp1.Program.Catch | submission.cs:78-85 | An exception that stops the read adds exactly one entry. It is the well-formedness entry for an `XmlException` and the unhandled-exception entry for any other exception. |
| ConsoleApp1.Program.ReadDocument | submission.cs:65-85 | The `try` block with its catch arms appends exactly `Entries(read)` to the buffer: the event entries up to the first exception, then that exception's entry, then nothing more. |
| ConsoleApp1.Program.Verification | submission.cs:41-88 | If the schema load throws, the exception propagates and the buffer stays cleared. Otherwise the buffer holds exactly this call's entries, and the result is `Report` of them. The result never depends on an earlier call. |
| ConsoleApp1.Program.PhoneArray | submission.cs:116-119 | The phone array holds every `Phone` child's value as a string, in document order. |
| ConsoleApp1.Program.AddressObject | submission.cs:122-137 | The address object built by the initializer and the conditional `_NearestAirport` set equals `AddressJson` of the element's address record. |
| ConsoleApp1.Program.HotelObject | submission.cs:110-143 | The hotel object built step by step equals `HotelJson` of the element's hotel record. |
| ConsoleApp1.Program.Xml2Json | submission.cs:93-151 | A load failure propagates. Otherwise the result is `{"Hotels":{"Hotel":[...]}}` with one object per `Hotel` child of the root, in order. |
| ConsoleApp1.Program.Run | submission.cs:23-36 | Outputs come valid report, faulty report, JSON tree, and an exception ends the run. The faulty report is computed from the faulty read alone. The buffer is left holding the last validation's entries, or empty when a schema load failed. |
| Validation.EntriesWithoutException | submission.cs:60-73 | A read that reaches the end leaves one entry per event, in the order raised, and nothing else. |
| Validation.EntriesStopAtException | submission.cs:65-85 | A read that throws leaves the entries of every earlier event, then one entry for the exception, and nothing for the steps after it. |
| Validation.EntriesEmptyIffSilent | submission.cs:60-85 | The buffer is empty exactly when the read raised no event and threw nothing. |
| Validation.EntriesTagged | submission.cs:62-84 | Every entry is non-empty and starts with 'L' (an event), 'X' or 'U' (an exception). |
| Validation.ReportNoErrorIffSilent | submission.cs:87 | The report is `"No Error"` exactly when the read raised no event and threw nothing. A non-empty buffer is never reported as success. |
| Validation.ReportJoinsEntries | submission.cs:87 | A non-empty buffer is reported as its entries joined by the separator (space, vertical bar, space). Each entry sits between the join of the entries before it and the join of those after it, with one separator on each side that has a neighbour. |
| Validation.EventEntryRoundTrip | submission.cs:62 | Parsing an event's entry gives back its line, position and message, so an entry loses nothing of its event. |
| Validation.ExceptionEntryDistinct | submission.cs:78-85 | An exception entry never parses as an event entry. Its first letter tells a well-formedness failure from any other exception. |
| Text.NatToString | submission.cs:62 | A line or position is rendered as a non-empty string of decimal digits with no leading zero. |
| Text.IntToStringRoundTrip | submission.cs:62 | Parsing the rendering of any integer, negative ones included, gives that integer back. |
| Text.JoinSegment | submission.cs:87 | In `string.Join`, element `i` appears between the join of the elements before it and the join of those after it. |
| Xml.Named | submission.cs:108 | `Elements(name)` keeps exactly the children with that name: each one it returns has the name and is a child, and each child with the name is returned. |
| Xml.NamedAppend | submission.cs:108 | Selecting from two runs of children selects from the first run, then from the second, so document order is kept. |
| Xml.Element | submission.cs:112 | `Element(name)` is null exactly when no child has the name. Otherwise it is a child with that name. |
| Xml.ElementIsFirst | submission.cs:112 | `Element(name)` is the first child with that name. |
| Json.PutThenGet | submission.cs:119-143 | After `obj[name] = value`, looking up `name` gives `value` and every other key is unchanged. A new key goes at the end of the key order, and an existing key keeps its place. |
| Hotels.DocumentAppendChild | submission.cs:105-148 | A root that gains one more child keeps its hotel array and adds that child's object at the end when it is a `Hotel`; any other child leaves the JSON unchanged. |
| Hotels.HotelsOfAppend | submission.cs:108-146 | A further root child adds one hotel object at the end when it is named `Hotel`, and nothing otherwise. |
| Hotels.NoHotelsEmptyArray | submission.cs:105-148 | A root with no `Hotel` child gives `{"Hotels":{"Hotel":[]}}`. |
| Hotels.HotelNameAndPhone | submission.cs:110-119 | `Name` is the first `Name` child's value, or null without one. `Phone` is an array of every `Phone` child's value, in document order. |
| Hotels.HotelAddressAndRating | submission.cs:121-143 | `Address` is present exactly when an `Address` child exists, and carries that child's object. `_Rating` is present exactly when the `Rating` attribute is non-empty, and carries it. |
| Hotels.HotelPropertyOrder | submission.cs:110-143 | A hotel object's keys come in the order Name, Phone, Address, _Rating, the last two only when present. |
| Hotels.AddressProperties | submission.cs:125-135 | An address object's keys are Number, Street, City, State, Zip, then `_NearestAirport` exactly when that attribute is non-empty. Each of the five holds its attribute's value, or null when the attribute is absent. |
| Hotels.HotelRoundTrip | submission.cs:110-145 | Decoding a hotel object gives back its whole record: name, phones in order, address and rating. |
| Hotels.DocumentRoundTrip | submission.cs:105-148 | Decoding the converted document gives back the record of every `Hotel` child, in document order. |

## Left out

- Network fetches through `WebClient` are I/O, so their content is not modelled. Their failures are: the schema load is an input to `Verification` that may throw, a failed download or reader creation inside the `try` block is a leading `Throw` step of the read, and the loaded document is an input to `Xml2Json` that may be an exception.
- XSD compilation and validation by `XmlSchemaSet` and `XmlReader` are library code. The model takes what they produce as input: the events raised at each `Read()` and the exception that may end the read. Which document raises which event is not modelled.
- `XDocument.Load` parsing and `XElement.Value` (the concatenation of descendant text) are library code. The element tree and each element's text value are given.
- XML namespaces are not modelled: element and attribute names are plain strings.
- `json.ToString()` rendering is not modelled. The model stops at the JSON value, so `Xml2Json` returns the tree and not its text.
- `Console.WriteLine` and its labels are output plumbing. `Run` returns the values it would print.
- The three URL constants are configuration, so the model has no counterpart for them.
- Text.IntToString: renders integers in invariant digits with a leading '-' for negatives. Culture-specific number formatting is not modelled.
- ConsoleApp1.Program: the static buffer is an instance field, because Dafny classes have no mutable static state. Several runs are one object's successive method calls.
- Concurrent calls sharing the static buffer are not modelled, because the program is single-threaded.
