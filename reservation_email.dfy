/** Turning pasted reservation e-mails into reservation records
    (`extract_value`, `parse_reservation_email` and the chunk loop of
    `ingest_email` in app.py).

    `datetime.fromisoformat` is not modelled: every operation that reads a
    date takes the parser as a parameter `parseTime`, a partial function from
    text to a timestamp (`None` where Python raises `ValueError`). */
module ReservationEmail {
  import opened Wrappers
  import opened Text
  import opened Sequences

  /** A reservation row as `parse_reservation_email` builds it. */
  datatype Reservation = Reservation(
    guestName: Option<string>,
    bookingId: Option<string>,
    plate: string,
    startDate: int,
    endDate: int,
    state: string)

  const DefaultPlate: string := "CO1234"
  const DefaultState: string := "CO"

  /** The separator between pasted e-mails. */
  const EmailSeparator: string := "-----"

  // ---------------------------------------------------------------------
  // extract_value
  // ---------------------------------------------------------------------

  /** A line carries a value for `name`: lower-cased, it starts with the
      lower-cased name, and it has a colon somewhere. */
  predicate Qualifies(line: string, name: string) {
    StartsWith(Lower(line), Lower(name)) && ':' in line
  }

  /** The value a qualifying line carries: its text after the first colon,
      stripped. */
  function LineValue(line: string): (v: string)
    requires ':' in line
  {
    Strip(AfterFirstColon(line))
  }

  /** Index of the first qualifying line. A line that starts with the name
      but has no colon does not qualify, and the scan goes on past it;
      `None` when no line qualifies. */
  function FirstQualifying(lines: seq<string>, name: string): (r: Option<nat>)
    ensures r.Some? ==> r.value < |lines| && Qualifies(lines[r.value], name)
    ensures r.Some? ==> forall j :: 0 <= j < r.value ==> !Qualifies(lines[j], name)
    ensures r.None? <==> forall j :: 0 <= j < |lines| ==> !Qualifies(lines[j], name)
  {
    if lines == [] then None
    else if Qualifies(lines[0], name) then Some(0)
    else
      match FirstQualifying(lines[1..], name)
      case None => None
      case Some(i) => Some(i + 1)
  }

  /** `extract_value(body, name)`: the stripped text after the first colon
      of the first qualifying line of `body`, `None` when no line qualifies. */
  function ExtractValue(body: string, name: string): (r: Option<string>)
  {
    var lines := SplitLines(body);
    match FirstQualifying(lines, name)
    case None => None
    case Some(i) => Some(LineValue(lines[i]))
  }

  /** A value that lies on one line and neither starts nor ends with white
      space. */
  predicate IsCleanValue(v: string) {
    (forall k :: 0 <= k < |v| ==> !IsLineBreak(v[k]))
    && (v == [] || (!IsSpace(v[0]) && !IsSpace(v[|v| - 1])))
  }

  /** Stripping text without line breaks gives a clean value. */
  lemma StrippedIsClean(s: string)
    requires forall j :: 0 <= j < |s| ==> !IsLineBreak(s[j])
    ensures IsCleanValue(Strip(s))
  {
    StripIsTrimmed(s);
    StripKeeps(s, c => !IsLineBreak(c));
  }

  /** The value of a line without line breaks is clean. */
  lemma LineValueIsClean(line: string)
    requires ':' in line
    requires forall j :: 0 <= j < |line| ==> !IsLineBreak(line[j])
    ensures IsCleanValue(LineValue(line))
  {
    var after := AfterFirstColon(line);
    forall j | 0 <= j < |after| ensures !IsLineBreak(after[j]) {
      assert after[j] == line[|line| - |after| + j];
    }
    StrippedIsClean(after);
  }

  /** An extracted value lies on one line and is stripped. */
  lemma ExtractedValueIsClean(body: string, name: string)
    requires ExtractValue(body, name).Some?
    ensures IsCleanValue(ExtractValue(body, name).value)
  {
    var lines := SplitLines(body);
    var i := FirstQualifying(lines, name).value;
    var line := lines[i];
    assert forall j :: 0 <= j < |line| ==> !IsLineBreak(line[j]);
    LineValueIsClean(line);
  }

  // ---------------------------------------------------------------------
  // parse_reservation_email
  // ---------------------------------------------------------------------

  /** Python's `a or b` on two results of `extract_value`: `a` when it is a
      non-empty string, otherwise `b` (an empty string is false). */
  function OrElse(a: Option<string>, b: Option<string>): (r: Option<string>)
    ensures a.Some? && a.value != [] ==> r == a
    ensures !(a.Some? && a.value != []) ==> r == b
  {
    if a.Some? && a.value != [] then a else b
  }

  function BookingIdText(body: string): Option<string> {
    OrElse(ExtractValue(body, "Booking ID"), ExtractValue(body, "Reservation"))
  }

  function StartText(body: string): Option<string> {
    OrElse(ExtractValue(body, "Start"), ExtractValue(body, "Pickup"))
  }

  function EndText(body: string): Option<string> {
    OrElse(ExtractValue(body, "End"), ExtractValue(body, "Return"))
  }

  /** `extract_value(body, "Plate") or "CO1234"`. */
  function PlateText(body: string): string {
    OrElse(ExtractValue(body, "Plate"), Some(DefaultPlate)).value
  }

  /** `datetime.fromisoformat(text)`: `None` (a `TypeError`) when there is no
      text at all, otherwise whatever the parser makes of it. */
  function ParseDate(text: Option<string>, parseTime: string -> Option<int>): Option<int> {
    match text
    case None => None
    case Some(t) => parseTime(t)
  }

  /** `parse_reservation_email(body)`. */
  function ParseReservationEmail(body: string, parseTime: string -> Option<int>): (r: Option<Reservation>) {
    var startDate := ParseDate(StartText(body), parseTime);
    var endDate := ParseDate(EndText(body), parseTime);
    if startDate.None? || endDate.None? then None
    else
      Some(Reservation(ExtractValue(body, "Guest"), BookingIdText(body), PlateText(body),
                       startDate.value, endDate.value, DefaultState))
  }

  /** A chunk is dropped exactly when its start text (`Start`, else `Pickup`)
      or its end text (`End`, else `Return`) is missing or does not parse. */
  lemma ParseFailsIff(body: string, parseTime: string -> Option<int>)
    ensures ParseReservationEmail(body, parseTime).None? <==>
      StartText(body).None? || parseTime(StartText(body).value).None?
      || EndText(body).None? || parseTime(EndText(body).value).None?
  {
  }

  /** What a parsed reservation holds: the state is always "CO", the dates
      are the parsed start and end texts, and the other fields are the
      extracted values. */
  lemma ParsedFields(body: string, parseTime: string -> Option<int>)
    requires ParseReservationEmail(body, parseTime).Some?
    ensures var r := ParseReservationEmail(body, parseTime).value;
      && r.state == "CO"
      && r.startDate == parseTime(StartText(body).value).value
      && r.endDate == parseTime(EndText(body).value).value
      && r.guestName == ExtractValue(body, "Guest")
      && r.bookingId == BookingIdText(body)
      && r.plate == PlateText(body)
  {
  }

  /** A value with a clean non-empty default is clean and non-empty. */
  lemma DefaultedValueIsClean(body: string, name: string, default: string)
    requires default != [] && IsCleanValue(default)
    ensures var v := OrElse(ExtractValue(body, name), Some(default)).value;
      v != [] && IsCleanValue(v)
  {
    var p := ExtractValue(body, name);
    if p.Some? && p.value != [] {
      ExtractedValueIsClean(body, name);
    }
  }

  /** The plate is the value of the first `Plate` line when that value is
      non-empty, and "CO1234" otherwise. It is never empty, lies on one line
      and neither starts nor ends with white space. */
  lemma PlateDefaults(body: string)
    ensures var p := ExtractValue(body, "Plate");
      && (p.Some? && p.value != [] ==> PlateText(body) == p.value)
      && (p.None? || p.value == [] ==> PlateText(body) == "CO1234")
    ensures PlateText(body) != [] && IsCleanValue(PlateText(body))
  {
    assert IsCleanValue(DefaultPlate);
    DefaultedValueIsClean(body, "Plate", DefaultPlate);
  }

  // ---------------------------------------------------------------------
  // ingest_email
  // ---------------------------------------------------------------------

  /** `chunk.strip()` is non-empty. */
  predicate IsNonBlank(chunk: string) {
    Strip(chunk) != []
  }

  /** The chunks whose stripped text is non-empty, in order. */
  function NonBlank(chunks: seq<string>): (r: seq<string>)
    ensures |r| <= |chunks|
  {
    Filter(chunks, IsNonBlank)
  }

  /** Every non-blank chunk is kept as many times as it occurs, and no blank
      one: two identical pasted e-mails are both ingested. */
  lemma NonBlankMultiplicity(chunks: seq<string>, c: string)
    ensures multiset(NonBlank(chunks))[c] == if IsNonBlank(c) then multiset(chunks)[c] else 0
  {
    FilterMultiplicity(chunks, IsNonBlank, c);
  }

  /** Dropping blank chunks keeps the order of the others. */
  lemma NonBlankAppend(a: seq<string>, b: seq<string>)
    ensures NonBlank(a + b) == NonBlank(a) + NonBlank(b)
  {
    FilterAppend(a, b, IsNonBlank);
  }

  /** `[chunk for chunk in email_body.split("-----") if chunk.strip()]`. */
  function NonBlankChunks(emailBody: string): (r: seq<string>)
    ensures |r| <= |Split(emailBody, EmailSeparator)|
  {
    NonBlank(Split(emailBody, EmailSeparator))
  }

  /** The reservations that `parse` makes of the chunks, in chunk order,
      one per chunk that it accepts. */
  function ParsedReservations(chunks: seq<string>, parse: string -> Option<Reservation>): (rs: seq<Reservation>)
  {
    if chunks == [] then []
    else
      var first := parse(chunks[0]);
      (if first.Some? then [first.value] else []) + ParsedReservations(chunks[1..], parse)
  }

  /** Number of chunks that `parse` accepts. */
  function CountParsed(chunks: seq<string>, parse: string -> Option<Reservation>): (n: nat) {
    if chunks == [] then 0
    else (if parse(chunks[0]).Some? then 1 else 0) + CountParsed(chunks[1..], parse)
  }

  /** One reservation per accepted chunk, so never more than there are
      chunks, and as many exactly when every chunk is accepted. */
  lemma {:induction false} ParsedCount(chunks: seq<string>, parse: string -> Option<Reservation>)
    ensures |ParsedReservations(chunks, parse)| == CountParsed(chunks, parse)
    ensures CountParsed(chunks, parse) <= |chunks|
    ensures CountParsed(chunks, parse) == |chunks| <==>
      forall i :: 0 <= i < |chunks| ==> parse(chunks[i]).Some?
  {
    if chunks != [] {
      var n := |chunks|;
      ParsedCount(chunks[1..], parse);
      if CountParsed(chunks, parse) == n {
        forall i | 0 <= i < n ensures parse(chunks[i]).Some? {
          if i > 0 { assert chunks[i] == chunks[1..][i - 1]; }
        }
      }
      if forall i :: 0 <= i < n ==> parse(chunks[i]).Some? {
        assert forall i :: 0 <= i < n - 1 ==> chunks[1..][i] == chunks[i + 1];
      }
    }
  }

  /** The reservations of two batches of chunks are those of the first
      followed by those of the second: ingesting keeps chunk order. */
  lemma {:induction false} ParsedAppend(a: seq<string>, b: seq<string>, parse: string -> Option<Reservation>)
    ensures ParsedReservations(a + b, parse) == ParsedReservations(a, parse) + ParsedReservations(b, parse)
  {
    if a == [] {
      assert a + b == b;
    } else {
      var first := parse(a[0]);
      var head := if first.Some? then [first.value] else [];
      ParsedAppend(a[1..], b, parse);
      assert (a + b)[0] == a[0];
      assert (a + b)[1..] == a[1..] + b;
      calc {
        ParsedReservations(a + b, parse);
        head + ParsedReservations(a[1..] + b, parse);
        head + (ParsedReservations(a[1..], parse) + ParsedReservations(b, parse));
        (head + ParsedReservations(a[1..], parse)) + ParsedReservations(b, parse);
      }
    }
  }

  /** `parse_reservation_email` with the date parser fixed. */
  function ChunkParser(parseTime: string -> Option<int>): string -> Option<Reservation> {
    chunk => ParseReservationEmail(chunk, parseTime)
  }

  /** The loop of `ingest_email` over the non-blank chunks: parses each with
      `parse` and adds the reservation of every chunk it accepts, counting
      them. */
  method IngestChunks(emails: seq<string>, parse: string -> Option<Reservation>)
    returns (added: seq<Reservation>, ingested: nat)
    ensures added == ParsedReservations(emails, parse)
    ensures ingested == |added| == CountParsed(emails, parse)
    ensures ingested <= |emails|
  {
    added, ingested := [], 0;
    var i := 0;
    while i < |emails|
      invariant 0 <= i <= |emails|
      invariant added == ParsedReservations(emails[..i], parse)
      invariant ingested == |added|
    {
      var parsed := parse(emails[i]);
      ParsedAppend(emails[..i], [emails[i]], parse);
      assert emails[..i + 1] == emails[..i] + [emails[i]];
      assert [emails[i]][1..] == [];
      if parsed.Some? {
        added := added + [parsed.value];
        ingested := ingested + 1;
      }
      i := i + 1;
    }
    assert emails[..i] == emails;
    ParsedCount(emails, parse);
  }

  /** `ingest_email`: splits the pasted text into non-blank chunks and
      ingests every chunk `parse_reservation_email` accepts. Returns the
      added reservations, in chunk order, and the count reported to the
      user. */
  method IngestEmail(emailBody: string, parseTime: string -> Option<int>)
    returns (added: seq<Reservation>, ingested: nat)
    ensures added == ParsedReservations(NonBlankChunks(emailBody), ChunkParser(parseTime))
    ensures ingested == |added| == CountParsed(NonBlankChunks(emailBody), ChunkParser(parseTime))
    ensures ingested <= |NonBlankChunks(emailBody)|
  {
    var emails := NonBlankChunks(emailBody);
    added, ingested := IngestChunks(emails, ChunkParser(parseTime));
  }
}
