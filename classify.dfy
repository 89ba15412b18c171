/** The event-type flags and the colour chosen from them by precedence
    (`is_collision`, `is_stopped_vehicle`, `is_lane_closed` and the nested
    `event_color` of `fetch_clean_511`). */
module Classify {
  import opened Text
  import opened Records

  /** Marker colours of the map. */
  datatype Color = Red | Orange | Blue | Green

  /** The three flag columns added to every surviving row. */
  datatype Flags = Flags(isCollision: bool, isStoppedVehicle: bool, isLaneClosed: bool)

  /** The alternatives of the regular expressions `Collision|Accident`,
      `Stopped|Stalled|Disabled` and `Lane`. */
  const CollisionWords: seq<string> := ["Collision", "Accident"]
  const StoppedWords: seq<string> := ["Stopped", "Stalled", "Disabled"]
  const LaneWords: seq<string> := ["Lane"]

  /** `str.contains(pattern, case=False, na=False)` on one cell: a text cell
      matches when one of the words occurs in it ignoring case; a null or
      non-text cell matches nothing. */
  function CellMatches(v: Json, words: seq<string>): bool {
    v.JString? && ContainsAnyIgnoringCase(v.text, words)
  }

  /** The flags of a row whose field names are already lower-cased. */
  function FlagsOf(rec: Record): Flags {
    Flags(CellMatches(Lookup(rec, "eventtype"), CollisionWords),
          CellMatches(Lookup(rec, "eventsubtype"), StoppedWords),
          CellMatches(Lookup(rec, "eventsubtype"), LaneWords))
  }

  /** `event_color`: the first flag that is set decides. */
  function EventColor(f: Flags): Color {
    if f.isCollision then Red
    else if f.isStoppedVehicle then Orange
    else if f.isLaneClosed then Blue
    else Green
  }

  /** Each colour is chosen exactly when its flag is set and every earlier
      flag is clear. */
  lemma ColorPrecedence(f: Flags)
    ensures EventColor(f) == Red <==> f.isCollision
    ensures EventColor(f) == Orange <==> !f.isCollision && f.isStoppedVehicle
    ensures EventColor(f) == Blue <==> !f.isCollision && !f.isStoppedVehicle && f.isLaneClosed
    ensures EventColor(f) == Green <==> !f.isCollision && !f.isStoppedVehicle && !f.isLaneClosed
  {
  }

  /** The colour of a row, from its own fields. */
  function RowColor(rec: Record): Color {
    EventColor(FlagsOf(rec))
  }

  lemma LowerCollisionWords()
    ensures Lower(CollisionWords[0]) == "collision" && Lower(CollisionWords[1]) == "accident"
  {
  }

  /** A row whose `eventtype` text contains "collision" or "accident" in any
      case is red, whatever its subtype says. */
  lemma CollisionTypeIsRed(rec: Record, t: string, i: nat)
    requires Lookup(rec, "eventtype") == JString(t)
    requires OccursAt(Lower(t), "collision", i) || OccursAt(Lower(t), "accident", i)
    ensures RowColor(rec) == Red
  {
    LowerCollisionWords();
    if OccursAt(Lower(t), "collision", i) {
      ContainsAnyWhenOccurs(t, CollisionWords, 0, i);
    } else {
      ContainsAnyWhenOccurs(t, CollisionWords, 1, i);
    }
  }

  /** Orange exactly when the type is not a collision and the subtype text
      names a stopped, stalled or disabled vehicle; blue exactly when neither
      holds and the subtype mentions a lane; green otherwise. */
  lemma RowColorIff(rec: Record)
    ensures RowColor(rec) == Red <==> CellMatches(Lookup(rec, "eventtype"), CollisionWords)
    ensures RowColor(rec) == Orange <==>
              !CellMatches(Lookup(rec, "eventtype"), CollisionWords)
              && CellMatches(Lookup(rec, "eventsubtype"), StoppedWords)
    ensures RowColor(rec) == Blue <==>
              !CellMatches(Lookup(rec, "eventtype"), CollisionWords)
              && !CellMatches(Lookup(rec, "eventsubtype"), StoppedWords)
              && CellMatches(Lookup(rec, "eventsubtype"), LaneWords)
    ensures RowColor(rec) == Green <==>
              !CellMatches(Lookup(rec, "eventtype"), CollisionWords)
              && !CellMatches(Lookup(rec, "eventsubtype"), StoppedWords)
              && !CellMatches(Lookup(rec, "eventsubtype"), LaneWords)
  {
    ColorPrecedence(FlagsOf(rec));
  }

  /** With no text in `eventtype` and `eventsubtype` (null, missing or not a
      string) no flag is set and the row is green. */
  lemma MissingTextIsGreen(rec: Record)
    requires !Lookup(rec, "eventtype").JString?
    requires !Lookup(rec, "eventsubtype").JString?
    ensures FlagsOf(rec) == Flags(false, false, false)
    ensures RowColor(rec) == Green
  {
  }
}
