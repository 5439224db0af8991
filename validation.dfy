/**
 * The validation report of `Verification`: what the schema-validating
 * reader produces while it reads a document, how each of its events and
 * the exception that may end the read become entries of the error buffer,
 * and how the buffer becomes the returned report.
 */
module Validation {
  import opened Runtime
  import opened Text

  /** A schema-validation event: the position the validator reports for it
      (`LineNumber`, `LinePosition`) and its message. */
  datatype ValidationEvent = ValidationEvent(line: int, position: int, message: string)

  /** One step of the `try` block: the events the validator raises while the
      reader advances to one node, or the exception that ends the block,
      whether it comes from the download, from creating the reader or from a
      `Read()`. A `Read()` that raises events and then throws is a `Node`
      followed by a `Throw`. The read ends when the steps run out (`Read()`
      returns false). */
  datatype ReadStep = Node(fired: seq<ValidationEvent>) | Throw(exception: Exception)

  /** Loading the schema into the schema set: it succeeds, or throws. */
  datatype SchemaLoad = SchemaLoaded | SchemaFailed(exception: Exception)

  const NoError := "No Error"
  const Separator := " | "
  const WellFormednessPrefix := "XML well\U{2011}formedness error: "
  const UnhandledPrefix := "Unhandled exception: "

  /** The entry the validation event handler adds for one event. */
  function FormatEvent(e: ValidationEvent): string {
    "Line " + IntToString(e.line) + ", Pos " + IntToString(e.position) + ": " + e.message
  }

  /** The entry a catch arm adds for the exception that ended the read. */
  function ExceptionEntry(e: Exception): string {
    match e
    case XmlException(m) => WellFormednessPrefix + m
    case OtherException(m) => UnhandledPrefix + m
  }

  /** The handler's entries for a list of events, one each, in order. */
  function FormatAll(events: seq<ValidationEvent>): (r: seq<string>)
    ensures |r| == |events|
  {
    seq(|events|, k requires 0 <= k < |events| => FormatEvent(events[k]))
  }

  /** The entries one read of the document leaves in the error buffer. */
  function Entries(read: seq<ReadStep>): seq<string>
    decreases |read|
  {
    if read == [] then []
    else match read[0]
      case Node(fired) => FormatAll(fired) + Entries(read[1..])
      case Throw(e) => [ExceptionEntry(e)]
  }

  lemma FormatAllSnoc(events: seq<ValidationEvent>, j: nat)
    requires j < |events|
    ensures FormatAll(events[..j + 1]) == FormatAll(events[..j]) + [FormatEvent(events[j])]
  {
  }

  /** The returned string for a buffer of entries. */
  function Report(entries: seq<string>): string {
    if |entries| == 0 then NoError else Join(Separator, entries)
  }

  // ---------------------------------------------------------------------
  // Reference descriptions of a read
  // ---------------------------------------------------------------------

  /** The read ran to the end of the document without an exception. */
  predicate NoThrow(read: seq<ReadStep>) {
    forall k :: 0 <= k < |read| ==> read[k].Node?
  }

  /** Every event raised at the nodes of `read`, in the order raised. */
  function AllFired(read: seq<ReadStep>): seq<ValidationEvent>
    decreases |read|
  {
    if read == [] then []
    else match read[0]
      case Node(fired) => fired + AllFired(read[1..])
      case Throw(_) => AllFired(read[1..])
  }

  /** The read raised no event and threw nothing. */
  predicate Silent(read: seq<ReadStep>) {
    forall k :: 0 <= k < |read| ==> read[k] == Node([])
  }

  lemma FormatAllAppend(a: seq<ValidationEvent>, b: seq<ValidationEvent>)
    ensures FormatAll(a + b) == FormatAll(a) + FormatAll(b)
  {
  }

  /** A read that reaches the end of the document yields exactly one
      "Line L, Pos P: message" entry per event, in the order raised. */
  lemma {:induction false} EntriesWithoutException(read: seq<ReadStep>)
    requires NoThrow(read)
    ensures Entries(read) == FormatAll(AllFired(read))
    decreases |read|
  {
    if read != [] {
      EntriesWithoutException(read[1..]);
      FormatAllAppend(read[0].fired, AllFired(read[1..]));
    }
  }

  /** A read that throws yields the entries of every event raised before the
      exception, then exactly one entry for the exception, and nothing for
      the steps after it: reading stops there. */
  lemma {:induction false} EntriesStopAtException(pre: seq<ReadStep>, e: Exception, post: seq<ReadStep>)
    requires NoThrow(pre)
    ensures Entries(pre + [Throw(e)] + post) == FormatAll(AllFired(pre)) + [ExceptionEntry(e)]
    decreases |pre|
  {
    var read := pre + [Throw(e)] + post;
    if pre == [] {
      assert read[0] == Throw(e);
    } else {
      assert read[0] == pre[0];
      assert read[1..] == pre[1..] + [Throw(e)] + post;
      EntriesStopAtException(pre[1..], e, post);
      FormatAllAppend(pre[0].fired, AllFired(pre[1..]));
    }
  }

  /** Regrouping a concatenation, stated once so that a loop over the read
      can move one node's entries from what remains to what is buffered. */
  lemma AppendAssociative(a: seq<string>, b: seq<string>, c: seq<string>)
    ensures (a + b) + c == a + (b + c)
  {
  }

  /** The entries still to come once the read has reached step `i`. */
  function EntriesFrom(read: seq<ReadStep>, i: nat): seq<string>
    requires i <= |read|
    decreases |read| - i
  {
    if i == |read| then []
    else match read[i]
      case Node(fired) => FormatAll(fired) + EntriesFrom(read, i + 1)
      case Throw(e) => [ExceptionEntry(e)]
  }

  /** What remains from step `i` is what a read starting there produces. */
  lemma {:induction false} EntriesFromSuffix(read: seq<ReadStep>, i: nat)
    requires i <= |read|
    ensures EntriesFrom(read, i) == Entries(read[i..])
    decreases |read| - i
  {
    if i < |read| {
      assert read[i..][0] == read[i] && read[i..][1..] == read[i + 1..];
      EntriesFromSuffix(read, i + 1);
    }
  }

  /** The first letter of every entry: 'L' for an event, 'X' or 'U' for an exception. */
  predicate Tagged(entry: string) {
    |entry| > 0 && entry[0] in {'L', 'X', 'U'}
  }

  lemma {:induction false} EntriesTagged(read: seq<ReadStep>)
    ensures forall k :: 0 <= k < |Entries(read)| ==> Tagged(Entries(read)[k])
    decreases |read|
  {
    if read != [] && read[0].Node? {
      EntriesTagged(read[1..]);
    }
  }

  lemma {:induction false} EntriesEmptyIffSilent(read: seq<ReadStep>)
    ensures Entries(read) == [] <==> Silent(read)
    decreases |read|
  {
    if read != [] {
      EntriesEmptyIffSilent(read[1..]);
      if read[0].Node? && read[0].fired == [] {
        assert Entries(read) == Entries(read[1..]);
        assert Silent(read) <==> Silent(read[1..]) by {
          if Silent(read[1..]) {
            forall k | 0 <= k < |read| ensures read[k] == Node([]) {
              if k > 0 { assert read[k] == read[1..][k - 1]; }
            }
          }
        }
      } else {
        assert !Silent(read) by { assert read[0] != Node([]); }
        if read[0].Node? {
          assert |Entries(read)| >= |FormatAll(read[0].fired)| > 0;
        }
      }
    }
  }

  /** The report is "No Error" exactly when the read raised no event and threw
      nothing; no non-empty buffer can be mistaken for success. */
  lemma ReportNoErrorIffSilent(read: seq<ReadStep>)
    ensures Report(Entries(read)) == NoError <==> Silent(read)
  {
    var entries := Entries(read);
    EntriesEmptyIffSilent(read);
    if entries != [] {
      EntriesTagged(read);
      assert Tagged(entries[0]);
      JoinStartsWithFirst(Separator, entries);
      assert Report(entries)[0] == entries[0][0];
    }
  }

  /** A non-empty buffer is reported as its entries joined by " | ", in order:
      entry `i` stands between the entries before it and those after it. */
  lemma ReportJoinsEntries(entries: seq<string>, i: nat)
    requires i < |entries|
    ensures Report(entries) ==
      Join(Separator, entries[..i]) + (if i > 0 then Separator else "") + entries[i]
      + (if i < |entries| - 1 then Separator else "") + Join(Separator, entries[i + 1..])
  {
    JoinSegment(Separator, entries, i);
  }

  // ---------------------------------------------------------------------
  // Event entries are lossless
  // ---------------------------------------------------------------------

  predicate HasPrefix(s: string, p: string) {
    |s| >= |p| && s[..|p|] == p
  }

  /** Reads an event entry back into its line, position and message. */
  function ParseEvent(s: string): Option<ValidationEvent> {
    if HasPrefix(s, "Line ") then ParseLineField(s[5..]) else None
  }

  function ParseLineField(rest: string): Option<ValidationEvent> {
    var c := IndexOf(rest, ',');
    match ParseInt(rest[..c])
    case None => None
    case Some(line) =>
      if HasPrefix(rest[c..], ", Pos ") then ParsePositionField(line, rest[c + 6..]) else None
  }

  function ParsePositionField(line: int, rest: string): Option<ValidationEvent> {
    var d := IndexOf(rest, ':');
    match ParseInt(rest[..d])
    case None => None
    case Some(position) =>
      if HasPrefix(rest[d..], ": ") then Some(ValidationEvent(line, position, rest[d + 2..])) else None
  }

  lemma IndexOfAfter(a: string, tail: string, c: char)
    requires forall k :: 0 <= k < |a| ==> a[k] != c
    requires |tail| > 0 && tail[0] == c
    ensures IndexOf(a + tail, c) == |a|
  {
    var s := a + tail;
    assert s[|a|] == c;
    assert forall k :: 0 <= k < |a| ==> s[k] == a[k];
  }

  lemma ParsePositionFieldOk(line: int, position: int, message: string)
    ensures ParsePositionField(line, IntToString(position) + (": " + message))
         == Some(ValidationEvent(line, position, message))
  {
    var P := IntToString(position);
    var rest := P + (": " + message);
    IndexOfAfter(P, ": " + message, ':');
    assert rest[..|P|] == P;
    assert rest[|P|..] == ": " + message;
    IntToStringRoundTrip(position);
  }

  lemma ParseLineFieldOk(e: ValidationEvent)
    ensures ParseLineField(IntToString(e.line) + (", Pos " + (IntToString(e.position) + (": " + e.message))))
         == Some(e)
  {
    var L := IntToString(e.line);
    var tail := ", Pos " + (IntToString(e.position) + (": " + e.message));
    var rest := L + tail;
    IndexOfAfter(L, tail, ',');
    assert rest[..|L|] == L;
    assert rest[|L|..] == tail;
    assert rest[|L| + 6..] == IntToString(e.position) + (": " + e.message);
    IntToStringRoundTrip(e.line);
    ParsePositionFieldOk(e.line, e.position, e.message);
  }

  /** The entry for an event determines the event: its line, position and
      message can all be read back. */
  lemma EventEntryRoundTrip(e: ValidationEvent)
    ensures ParseEvent(FormatEvent(e)) == Some(e)
  {
    var s := FormatEvent(e);
    var rest := IntToString(e.line) + (", Pos " + (IntToString(e.position) + (": " + e.message)));
    assert s == "Line " + rest;
    assert s[5..] == rest;
    ParseLineFieldOk(e);
  }

  /** An exception entry is never read as an event entry, and the two kinds
      of exception entry differ: the buffer keeps which case occurred. */
  lemma ExceptionEntryDistinct(e: Exception)
    ensures ParseEvent(ExceptionEntry(e)) == None
    ensures e.XmlException? <==> ExceptionEntry(e)[0] == 'X'
  {
    var s := ExceptionEntry(e);
    assert s[0] != 'L' && |s| >= 5;
    assert s[..5][0] == s[0];
    assert !HasPrefix(s, "Line ");
  }
}
