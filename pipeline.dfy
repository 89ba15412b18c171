/** The clean-and-classify pass of `fetch_clean_511` and the date slice the
    dashboard applies to its result. */
module RoadEvents {
  import opened Wrappers
  import opened Text
  import opened Records
  import opened Seqs
  import opened Classify

  datatype Date = Date(year: int, month: int, day: int)

  /** A parsed timestamp: its calendar date (`.dt.date`) and the time within
      that day. Formats and time zones belong to the parser. */
  datatype Timestamp = Timestamp(date: Date, timeOfDay: nat)

  /** The column a selection asked for and the frame did not have (pandas'
      `KeyError`). */
  datatype Error = MissingColumn(column: string)

  /** `pd.to_datetime` and `pd.to_numeric` on one non-null cell with
      `errors="coerce"`: `None` where the value cannot be parsed. */
  type TimeParser = Json -> Option<Timestamp>
  type NumberParser = Json -> Option<real>

  /** Coercion of one cell: a null cell stays null whatever the parser does. */
  function Coerce<T>(parse: Json -> Option<T>, v: Json): Option<T> {
    if v == JNull then None else parse(v)
  }

  /** A row after the time and coordinate columns were coerced. */
  datatype CleanRow = CleanRow(
    fields: Record,
    start: Option<Timestamp>,
    end: Option<Timestamp>,
    latitude: Option<real>,
    longitude: Option<real>)

  /** Coerces `starttime`, `endtime`, `latitude` and `longitude` of a row whose
      field names are lower-cased. */
  function Clean(parseTime: TimeParser, parseNumber: NumberParser, rec: Record): CleanRow {
    CleanRow(rec,
             Coerce(parseTime, Lookup(rec, "starttime")),
             Coerce(parseTime, Lookup(rec, "endtime")),
             Coerce(parseNumber, Lookup(rec, "latitude")),
             Coerce(parseNumber, Lookup(rec, "longitude")))
  }

  /** The drop mask: start time and both coordinates are present. */
  predicate Complete(c: CleanRow) {
    c.start.Some? && c.latitude.Some? && c.longitude.Some?
  }

  /** A row of the returned frame. */
  datatype Event = Event(
    fields: Record,
    start: Timestamp,
    end: Option<Timestamp>,
    latitude: real,
    longitude: real,
    flags: Flags,
    color: Color)

  /** Adds the flag columns and the colour to a complete row. */
  function Classified(c: CleanRow): Event
    requires Complete(c)
  {
    var f := FlagsOf(c.fields);
    Event(c.fields, c.start.value, c.end, c.latitude.value, c.longitude.value, f, EventColor(f))
  }

  /** The columns the pass selects without checking that they exist, in the
      order it selects them. */
  const SelectedColumns: seq<string> := ["starttime", "latitude", "longitude", "eventtype", "eventsubtype"]

  /** The first of `names` that is not a column, if any. */
  function FirstMissing(cols: set<string>, names: seq<string>): (m: Option<string>)
    ensures m == None <==> forall k :: 0 <= k < |names| ==> names[k] in cols
    ensures m.Some? ==> exists k :: 0 <= k < |names| && names[k] == m.value && names[k] !in cols
                                    && forall j :: 0 <= j < k ==> names[j] in cols
  {
    if names == [] then None
    else if names[0] !in cols then Some(names[0])
    else FirstMissing(cols, names[1..])
  }

  /** The frame with lower-cased field names. */
  function NormalisedFrame(payload: seq<Record>): (rows: seq<Record>)
  {
    seq(|payload|, i requires 0 <= i < |payload| => NormaliseNames(payload[i]))
  }

  /** The frame with coerced time and coordinate columns. */
  function CleanedFrame(parseTime: TimeParser, parseNumber: NumberParser, rows: seq<Record>): seq<CleanRow>
  {
    seq(|rows|, i requires 0 <= i < |rows| => Clean(parseTime, parseNumber, rows[i]))
  }

  /** Flags and colour for every row of a frame of complete rows. */
  function ClassifyAll(kept: seq<CleanRow>): seq<Event>
    requires forall i :: 0 <= i < |kept| ==> Complete(kept[i])
  {
    seq(|kept|, i requires 0 <= i < |kept| => Classified(kept[i]))
  }

  /** The rows the pass returns when no selected column is missing. */
  function Events(parseTime: TimeParser, parseNumber: NumberParser, payload: seq<Record>): seq<Event>
  {
    ClassifyAll(Filter(Complete, CleanedFrame(parseTime, parseNumber, NormalisedFrame(payload))))
  }

  /** The whole pass: lower-case, coerce, drop, classify; a `KeyError` when a
      selected column does not exist. */
  function FetchCleanSpec(parseTime: TimeParser, parseNumber: NumberParser, payload: seq<Record>): Result<seq<Event>, Error>
  {
    match FirstMissing(Columns(NormalisedFrame(payload)), SelectedColumns)
    case Some(c) => Failure(MissingColumn(c))
    case None => Success(Events(parseTime, parseNumber, payload))
  }

  /** The drop decision for one raw record, stated on its own fields: its
      start time and both coordinates parse. The end time takes no part. */
  predicate RecordKept(parseTime: TimeParser, parseNumber: NumberParser, rec: Record) {
    var n := NormaliseNames(rec);
    && Coerce(parseTime, Lookup(n, "starttime")).Some?
    && Coerce(parseNumber, Lookup(n, "latitude")).Some?
    && Coerce(parseNumber, Lookup(n, "longitude")).Some?
  }

  /** The returned rows are built from the records whose start time and
      coordinates parse, in input order: the k-th event comes from the
      record at position idx[k], the positions increase, and a record's
      position is among them exactly when it is kept. */
  lemma {:induction false} EventsAreKeptRecords(parseTime: TimeParser, parseNumber: NumberParser, payload: seq<Record>)
    ensures var idx := KeptIndices(Complete, CleanedFrame(parseTime, parseNumber, NormalisedFrame(payload)));
            var evs := Events(parseTime, parseNumber, payload);
            && |evs| == |idx|
            && (forall k, l :: 0 <= k < l < |idx| ==> idx[k] < idx[l])
            && (forall i :: 0 <= i < |payload| ==> (i in idx <==> RecordKept(parseTime, parseNumber, payload[i])))
            && (forall k :: 0 <= k < |idx| ==>
                  (idx[k] < |payload|
                   && evs[k] == Classified(Clean(parseTime, parseNumber, NormaliseNames(payload[idx[k]])))))
  {
    var cleaned := CleanedFrame(parseTime, parseNumber, NormalisedFrame(payload));
    FilterSelectsKeptIndices(Complete, cleaned);
  }

  /** One record yields one event when its start time and coordinates parse
      and none otherwise; the event carries the parsed values, whatever the
      end time is, and the colour of its own fields. */
  lemma EventsOfOne(parseTime: TimeParser, parseNumber: NumberParser, rec: Record)
    ensures var evs := Events(parseTime, parseNumber, [rec]);
            var n := NormaliseNames(rec);
            && (RecordKept(parseTime, parseNumber, rec) ==>
                  (|evs| == 1
                   && evs[0].fields == n
                   && evs[0].start == Coerce(parseTime, Lookup(n, "starttime")).value
                   && evs[0].end == Coerce(parseTime, Lookup(n, "endtime"))
                   && evs[0].latitude == Coerce(parseNumber, Lookup(n, "latitude")).value
                   && evs[0].longitude == Coerce(parseNumber, Lookup(n, "longitude")).value
                   && evs[0].color == RowColor(n)))
            && (!RecordKept(parseTime, parseNumber, rec) ==> evs == [])
  {
    var n := NormaliseNames(rec);
    assert NormalisedFrame([rec]) == [n];
    assert CleanedFrame(parseTime, parseNumber, [n]) == [Clean(parseTime, parseNumber, n)];
    FilterSingleton(Complete, Clean(parseTime, parseNumber, n));
  }

  /** Locality of the drop: the pass over a concatenation is the pass over
      each part, so no record's fate depends on another record. */
  lemma EventsConcat(parseTime: TimeParser, parseNumber: NumberParser, a: seq<Record>, b: seq<Record>)
    ensures Events(parseTime, parseNumber, a + b) == Events(parseTime, parseNumber, a) + Events(parseTime, parseNumber, b)
  {
    var ca := CleanedFrame(parseTime, parseNumber, NormalisedFrame(a));
    var cb := CleanedFrame(parseTime, parseNumber, NormalisedFrame(b));
    CleanedFrameConcat(parseTime, parseNumber, a, b);
    FilterConcat(Complete, ca, cb);
    ClassifyAllConcat(Filter(Complete, ca), Filter(Complete, cb));
  }

  lemma CleanedFrameConcat(parseTime: TimeParser, parseNumber: NumberParser, a: seq<Record>, b: seq<Record>)
    ensures CleanedFrame(parseTime, parseNumber, NormalisedFrame(a + b))
            == CleanedFrame(parseTime, parseNumber, NormalisedFrame(a)) + CleanedFrame(parseTime, parseNumber, NormalisedFrame(b))
  {
    assert NormalisedFrame(a + b) == NormalisedFrame(a) + NormalisedFrame(b);
  }

  lemma ClassifyAllConcat(a: seq<CleanRow>, b: seq<CleanRow>)
    requires forall i :: 0 <= i < |a| ==> Complete(a[i])
    requires forall i :: 0 <= i < |b| ==> Complete(b[i])
    ensures ClassifyAll(a + b) == ClassifyAll(a) + ClassifyAll(b)
  {
  }

  /** A record whose start time or a coordinate is missing or does not parse
      is dropped, and the others are returned as if it were not there. */
  lemma UnparseableRecordDropped(parseTime: TimeParser, parseNumber: NumberParser, a: seq<Record>, rec: Record, b: seq<Record>)
    requires var n := NormaliseNames(rec);
             || Coerce(parseTime, Lookup(n, "starttime")) == None
             || Coerce(parseNumber, Lookup(n, "latitude")) == None
             || Coerce(parseNumber, Lookup(n, "longitude")) == None
    ensures Events(parseTime, parseNumber, a + [rec] + b)
            == Events(parseTime, parseNumber, a) + Events(parseTime, parseNumber, b)
  {
    assert !RecordKept(parseTime, parseNumber, rec);
    EventsOfOne(parseTime, parseNumber, rec);
    assert Events(parseTime, parseNumber, [rec]) == [];
    EventsConcat(parseTime, parseNumber, a, [rec]);
    assert Events(parseTime, parseNumber, a + [rec]) == Events(parseTime, parseNumber, a);
    EventsConcat(parseTime, parseNumber, a + [rec], b);
  }

  /** The pass fails exactly when a selected column is absent from the frame,
      naming the first such column in selection order. */
  lemma FetchCleanFailsIff(parseTime: TimeParser, parseNumber: NumberParser, payload: seq<Record>)
    ensures var cols := Columns(NormalisedFrame(payload));
            && (FetchCleanSpec(parseTime, parseNumber, payload).Failure? <==>
                  exists k :: 0 <= k < |SelectedColumns| && SelectedColumns[k] !in cols)
            && (FetchCleanSpec(parseTime, parseNumber, payload).Success? ==>
                  FetchCleanSpec(parseTime, parseNumber, payload).value == Events(parseTime, parseNumber, payload))
  {
  }

  /** An empty feed gives a frame without columns, so selecting `starttime`
      fails. */
  lemma EmptyPayloadFails(parseTime: TimeParser, parseNumber: NumberParser)
    ensures FetchCleanSpec(parseTime, parseNumber, []) == Failure(MissingColumn("starttime"))
  {
    assert Columns(NormalisedFrame([])) == {};
  }

  /** The dashboard's date filter: the events starting on date `d`. */
  function OnDate(d: Date): Event -> bool {
    (e: Event) => e.start.date == d
  }

  function DateSlice(events: seq<Event>, d: Date): seq<Event> {
    Filter(OnDate(d), events)
  }

  /** The slice holds exactly the events whose start date is `d`, in their
      original order, and is empty when no event falls on `d`. */
  lemma DateSliceSpec(events: seq<Event>, d: Date)
    ensures var r := DateSlice(events, d);
            var idx := KeptIndices(OnDate(d), events);
            && (forall k :: 0 <= k < |r| ==> r[k].start.date == d)
            && (forall i :: 0 <= i < |events| && events[i].start.date == d ==> events[i] in r)
            && |r| == |idx|
            && (forall k, l :: 0 <= k < l < |idx| ==> idx[k] < idx[l])
            && (forall k :: 0 <= k < |idx| ==> idx[k] < |events| && r[k] == events[idx[k]])
            && (r == [] <==> forall i :: 0 <= i < |events| ==> events[i].start.date != d)
  {
    FilterSelectsKeptIndices(OnDate(d), events);
    FilterEmptyIff(OnDate(d), events);
  }

  lemma NormalisedFrameSnoc(payload: seq<Record>, i: nat)
    requires i < |payload|
    ensures NormalisedFrame(payload[..i + 1]) == NormalisedFrame(payload[..i]) + [NormaliseNames(payload[i])]
  {
  }

  lemma CleanedFrameSnoc(parseTime: TimeParser, parseNumber: NumberParser, rows: seq<Record>, rec: Record)
    ensures CleanedFrame(parseTime, parseNumber, rows + [rec])
            == CleanedFrame(parseTime, parseNumber, rows) + [Clean(parseTime, parseNumber, rec)]
  {
  }

  lemma ClassifyAllSnoc(kept: seq<CleanRow>, c: CleanRow)
    requires forall i :: 0 <= i < |kept| ==> Complete(kept[i])
    requires Complete(c)
    ensures ClassifyAll(kept + [c]) == ClassifyAll(kept) + [Classified(c)]
  {
  }

  /** Lower-cases the field names and coerces the time and coordinate
      columns, one row at a time. */
  method NormaliseAndCoerce(payload: seq<Record>, parseTime: TimeParser, parseNumber: NumberParser)
    returns (rows: seq<Record>, cleaned: seq<CleanRow>)
    ensures rows == NormalisedFrame(payload)
    ensures cleaned == CleanedFrame(parseTime, parseNumber, rows)
  {
    rows, cleaned := [], [];
    for i := 0 to |payload|
      invariant rows == NormalisedFrame(payload[..i])
      invariant cleaned == CleanedFrame(parseTime, parseNumber, rows)
    {
      var rec := NormaliseNames(payload[i]);
      NormalisedFrameSnoc(payload, i);
      CleanedFrameSnoc(parseTime, parseNumber, rows, rec);
      rows := rows + [rec];
      cleaned := cleaned + [Clean(parseTime, parseNumber, rec)];
    }
    assert payload[..|payload|] == payload;
  }

  /** Drops the incomplete rows and classifies the others, one row at a time. */
  method DropAndClassify(cleaned: seq<CleanRow>) returns (events: seq<Event>)
    ensures events == ClassifyAll(Filter(Complete, cleaned))
  {
    events := [];
    for i := 0 to |cleaned|
      invariant events == ClassifyAll(Filter(Complete, cleaned[..i]))
    {
      FilterSnoc(Complete, cleaned[..i], cleaned[i]);
      assert cleaned[..i + 1] == cleaned[..i] + [cleaned[i]];
      if Complete(cleaned[i]) {
        ClassifyAllSnoc(Filter(Complete, cleaned[..i]), cleaned[i]);
        events := events + [Classified(cleaned[i])];
      }
    }
    assert cleaned[..|cleaned|] == cleaned;
  }

  /** The pass as the source runs it: clean, check the selected columns,
      drop and classify. */
  method FetchClean(payload: seq<Record>, parseTime: TimeParser, parseNumber: NumberParser)
    returns (r: Result<seq<Event>, Error>)
    ensures r == FetchCleanSpec(parseTime, parseNumber, payload)
  {
    var rows, cleaned := NormaliseAndCoerce(payload, parseTime, parseNumber);
    var missing := FirstMissing(Columns(rows), SelectedColumns);
    if missing.Some? {
      return Failure(MissingColumn(missing.value));
    }
    var events := DropAndClassify(cleaned);
    r := Success(events);
  }
}
