/** Worked examples of the pass on concrete feed records. The parsers are
    left open: each example states only what they return on its values. */
module Scenarios {
  import opened Wrappers
  import opened Text
  import opened Records
  import opened Seqs
  import opened Classify
  import opened RoadEvents

  /** A collision whose subtype mentions a lane closure is still red. */
  lemma CollisionBeatsLaneClosure()
    ensures RowColor([Field("eventtype", JString("Collision")), Field("eventsubtype", JString("Lane Closure"))]) == Red
  {
    var rec := [Field("eventtype", JString("Collision")), Field("eventsubtype", JString("Lane Closure"))];
    assert Lower("Collision") == "collision";
    CollisionTypeIsRed(rec, "Collision", 0);
  }

  /** The lower-cased alternatives of the three patterns. */
  lemma LowerWords()
    ensures Lower(CollisionWords[0]) == "collision" && Lower(CollisionWords[1]) == "accident"
    ensures Lower(StoppedWords[0]) == "stopped" && Lower(StoppedWords[1]) == "stalled"
    ensures Lower(StoppedWords[2]) == "disabled"
    ensures Lower(LaneWords[0]) == "lane"
  {
  }

  lemma LowerRoadWork() ensures Lower("Road Work") == "road work" {}
  lemma LowerLaneClosed() ensures Lower("Lane Closed") == "lane closed" {}
  lemma LowerVehicleStalled() ensures Lower("Vehicle Stalled") == "vehicle stalled" {}

  /** A text without the letter c names neither a collision nor an accident. */
  lemma NoCollisionWord(s: string)
    requires 'c' !in Lower(s)
    ensures !CellMatches(JString(s), CollisionWords)
  {
    LowerWords();
    NotContainsWithoutChar(Lower(s), "collision", 0);
    NotContainsWithoutChar(Lower(s), "accident", 1);
  }

  /** A text without the letters t and i names no stopped, stalled or
      disabled vehicle. */
  lemma NoStoppedWord(s: string)
    requires 't' !in Lower(s) && 'i' !in Lower(s)
    ensures !CellMatches(JString(s), StoppedWords)
  {
    LowerWords();
    NotContainsWithoutChar(Lower(s), "stopped", 1);
    NotContainsWithoutChar(Lower(s), "stalled", 1);
    NotContainsWithoutChar(Lower(s), "disabled", 1);
  }

  /** "Road Work" names neither a collision nor an accident. */
  lemma RoadWorkIsNoCollision()
    ensures !CellMatches(JString("Road Work"), CollisionWords)
  {
    LowerRoadWork();
    NoCollisionWord("Road Work");
  }

  /** "Lane Closed" names no stopped, stalled or disabled vehicle. */
  lemma LaneClosedIsNotStopped()
    ensures !CellMatches(JString("Lane Closed"), StoppedWords)
  {
    LowerLaneClosed();
    NoStoppedWord("Lane Closed");
  }

  /** "Lane Closed" mentions a lane. */
  lemma LaneClosedMentionsLane()
    ensures CellMatches(JString("Lane Closed"), LaneWords)
  {
    LowerWords();
    LowerLaneClosed();
    assert OccursAt("lane closed", "lane", 0);
    ContainsAnyWhenOccurs("Lane Closed", LaneWords, 0, 0);
  }

  /** "Vehicle Stalled" names a stalled vehicle. */
  lemma VehicleStalledIsStopped()
    ensures CellMatches(JString("Vehicle Stalled"), StoppedWords)
  {
    LowerWords();
    LowerVehicleStalled();
    assert OccursAt("vehicle stalled", "stalled", 8);
    ContainsAnyWhenOccurs("Vehicle Stalled", StoppedWords, 1, 8);
  }

  /** Road work on a closed lane is blue. */
  lemma LaneClosedIsBlue()
    ensures RowColor([Field("eventtype", JString("Road Work")), Field("eventsubtype", JString("Lane Closed"))]) == Blue
  {
    RoadWorkIsNoCollision();
    LaneClosedIsNotStopped();
    LaneClosedMentionsLane();
  }

  /** A stalled vehicle during road work is orange: the stopped-vehicle flag
      comes before the lane flag. */
  lemma StalledVehicleIsOrange()
    ensures RowColor([Field("eventtype", JString("Road Work")), Field("eventsubtype", JString("Vehicle Stalled"))]) == Orange
  {
    RoadWorkIsNoCollision();
    VehicleStalledIsStopped();
  }

  /** A record whose start time does not parse is absent from the output,
      whatever its other fields hold. */
  lemma UnparseableStartExcluded(parseTime: TimeParser, parseNumber: NumberParser, a: seq<Record>, b: seq<Record>)
    requires parseTime(JString("not-a-date")) == None
    ensures var rec := [Field("StartTime", JString("not-a-date")), Field("Latitude", JString("43.7")),
                        Field("Longitude", JString("-79.4")), Field("EventType", JString("Collision"))];
            Events(parseTime, parseNumber, a + [rec] + b)
            == Events(parseTime, parseNumber, a) + Events(parseTime, parseNumber, b)
  {
    var rec := [Field("StartTime", JString("not-a-date")), Field("Latitude", JString("43.7")),
                Field("Longitude", JString("-79.4")), Field("EventType", JString("Collision"))];
    assert Lower("StartTime") == "starttime";
    assert NormaliseNames(rec)[0] == Field("starttime", JString("not-a-date"));
    assert Lookup(NormaliseNames(rec), "starttime") == JString("not-a-date");
    UnparseableRecordDropped(parseTime, parseNumber, a, rec, b);
  }

  /** A collision record with mixed-case field names and no end time. */
  const CollisionRecord: Record :=
    [Field("EventType", JString("Collision")), Field("EventSubType", JString("")),
     Field("StartTime", JString("2024-05-01T10:00:00")),
     Field("Latitude", JString("43.65")), Field("Longitude", JString("-79.38"))]

  /** The same record after its field names are lower-cased. */
  const CollisionRecordLower: Record :=
    [Field("eventtype", JString("Collision")), Field("eventsubtype", JString("")),
     Field("starttime", JString("2024-05-01T10:00:00")),
     Field("latitude", JString("43.65")), Field("longitude", JString("-79.38"))]

  lemma CollisionRecordNormalised()
    ensures NormaliseNames(CollisionRecord) == CollisionRecordLower
  {
    assert Lower("EventType") == "eventtype";
    assert Lower("EventSubType") == "eventsubtype";
    assert Lower("StartTime") == "starttime";
    assert Lower("Latitude") == "latitude";
    assert Lower("Longitude") == "longitude";
  }

  /** The lower-cased field names make the record's cells reachable under
      the names the pass selects. */
  lemma CollisionRecordCells()
    ensures Lookup(CollisionRecordLower, "eventtype") == JString("Collision")
    ensures Lookup(CollisionRecordLower, "starttime") == JString("2024-05-01T10:00:00")
    ensures Lookup(CollisionRecordLower, "endtime") == JNull
    ensures Lookup(CollisionRecordLower, "latitude") == JString("43.65")
    ensures Lookup(CollisionRecordLower, "longitude") == JString("-79.38")
  {
    var r := CollisionRecordLower;
    assert r[1..][1..][1..][1..][1..] == [];
    assert "eventtype"[0] != "starttime"[0] && "eventsubtype"[0] != "starttime"[0];
    assert "eventtype"[1] != "endtime"[1] && "eventsubtype"[1] != "endtime"[1];
    assert "starttime"[0] != "endtime"[0] && "latitude"[0] != "endtime"[0] && "longitude"[0] != "endtime"[0];
    assert "eventtype"[0] != "latitude"[0] && "eventsubtype"[0] != "latitude"[0] && "starttime"[0] != "latitude"[0];
    assert "eventtype"[0] != "longitude"[0] && "eventsubtype"[0] != "longitude"[0] && "starttime"[0] != "longitude"[0];
    assert "latitude"[1] != "longitude"[1];
    assert Lookup(r, "starttime") == Lookup(r[1..], "starttime") == Lookup(r[1..][1..], "starttime");
    assert Lookup(r, "latitude") == Lookup(r[1..], "latitude") == Lookup(r[1..][1..], "latitude")
           == Lookup(r[1..][1..][1..], "latitude");
    assert Lookup(r, "longitude") == Lookup(r[1..], "longitude") == Lookup(r[1..][1..], "longitude")
           == Lookup(r[1..][1..][1..], "longitude") == Lookup(r[1..][1..][1..][1..], "longitude");
    assert Lookup(r, "endtime") == Lookup(r[1..], "endtime") == Lookup(r[1..][1..], "endtime")
           == Lookup(r[1..][1..][1..], "endtime") == Lookup(r[1..][1..][1..][1..], "endtime")
           == Lookup(r[1..][1..][1..][1..][1..], "endtime");
  }

  /** The collision record becomes one red event with its parsed start time
      and coordinates and no end time, and it is in the slice of its own
      start date. */
  lemma CollisionRecordOnItsDate(parseTime: TimeParser, parseNumber: NumberParser)
    requires parseTime(JString("2024-05-01T10:00:00")) == Some(Timestamp(Date(2024, 5, 1), 36000))
    requires parseNumber(JString("43.65")) == Some(43.65)
    requires parseNumber(JString("-79.38")) == Some(-79.38)
    ensures var evs := Events(parseTime, parseNumber, [CollisionRecord]);
            && |evs| == 1
            && evs[0].color == Red
            && evs[0].start == Timestamp(Date(2024, 5, 1), 36000)
            && evs[0].latitude == 43.65 && evs[0].longitude == -79.38
            && evs[0].end == None
            && DateSlice(evs, Date(2024, 5, 1)) == evs
  {
    CollisionRecordNormalised();
    CollisionRecordCells();
    CollisionRecordIsRed();
    EventsOfOne(parseTime, parseNumber, CollisionRecord);
    var evs := Events(parseTime, parseNumber, [CollisionRecord]);
    assert |evs| == 1 && evs[0].start.date == Date(2024, 5, 1);
    FilterSingleton(OnDate(Date(2024, 5, 1)), evs[0]);
    assert evs == [evs[0]];
  }

  /** The collision record is red. */
  lemma CollisionRecordIsRed()
    ensures RowColor(CollisionRecordLower) == Red
  {
    CollisionRecordCells();
    LowerWords();
    assert OccursAt(Lower("Collision"), "collision", 0) by {
      assert Lower("Collision") == Lower(CollisionWords[0]);
    }
    CollisionTypeIsRed(CollisionRecordLower, "Collision", 0);
  }
}
