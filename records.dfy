/** Raw records of the road-event feed and the frame-level view pandas
    builds from them: field lookup, lower-casing of field names
    (`df.columns = [c.lower() for c in df.columns]`) and the column set. */
module Records {
  import opened Text

  /** A scalar value as decoded from the feed's JSON. */
  datatype Json = JNull | JBool(flag: bool) | JNumber(number: real) | JString(text: string)

  /** One field of a record, in the order the feed lists them. */
  datatype Field = Field(name: string, value: Json)

  type Record = seq<Field>

  /** The cell of column `key` in the row built from `rec`: the value of the
      first field called `key`, or null when the record has no such field
      (pandas fills the missing cell with NaN). */
  function Lookup(rec: Record, key: string): Json
  {
    if rec == [] then JNull
    else if rec[0].name == key then rec[0].value
    else Lookup(rec[1..], key)
  }

  /** Lookup returns the value of the first field named `key`, and null when
      no field has that name. */
  lemma {:induction false} LookupFirst(rec: Record, key: string)
    ensures (forall j :: 0 <= j < |rec| ==> rec[j].name != key) ==> Lookup(rec, key) == JNull
    ensures forall i :: 0 <= i < |rec| && rec[i].name == key && (forall j :: 0 <= j < i ==> rec[j].name != key)
                        ==> Lookup(rec, key) == rec[i].value
  {
    if rec != [] && rec[0].name != key {
      LookupFirst(rec[1..], key);
      forall i | 0 <= i < |rec| && rec[i].name == key && (forall j :: 0 <= j < i ==> rec[j].name != key)
        ensures Lookup(rec, key) == rec[i].value
      {
        assert i > 0 && rec[1..][i - 1] == rec[i];
        forall j | 0 <= j < i - 1 ensures rec[1..][j].name != key {
          assert rec[1..][j] == rec[j + 1];
        }
      }
    }
  }

  /** The record with every field name lower-cased; values and order are kept. */
  function NormaliseNames(rec: Record): (r: Record)
    ensures |r| == |rec|
    ensures forall i :: 0 <= i < |r| ==> r[i].value == rec[i].value && r[i].name == Lower(rec[i].name)
  {
    seq(|rec|, i requires 0 <= i < |rec| => Field(Lower(rec[i].name), rec[i].value))
  }

  /** Normalising field names twice gives the same record as once. */
  lemma NormaliseNamesIdempotent(rec: Record)
    ensures NormaliseNames(NormaliseNames(rec)) == NormaliseNames(rec)
  {
    forall i | 0 <= i < |rec| ensures Lower(Lower(rec[i].name)) == Lower(rec[i].name) {
      LowerIdempotent(rec[i].name);
    }
  }

  /** After normalisation a lookup ignores case: looking up `key` (in any
      case) finds the first field whose name equals `key` up to case, and
      null when there is none. */
  lemma LookupIgnoresCase(rec: Record, key: string)
    ensures (forall j :: 0 <= j < |rec| ==> Lower(rec[j].name) != Lower(key))
            ==> Lookup(NormaliseNames(rec), Lower(key)) == JNull
    ensures forall i :: 0 <= i < |rec| && Lower(rec[i].name) == Lower(key)
                        && (forall j :: 0 <= j < i ==> Lower(rec[j].name) != Lower(key))
                        ==> Lookup(NormaliseNames(rec), Lower(key)) == rec[i].value
  {
    LookupFirst(NormaliseNames(rec), Lower(key));
  }

  /** A key with a capital letter never matches a normalised field name. */
  lemma LookupCapitalisedKeyIsNull(rec: Record, key: string, k: nat)
    requires k < |key| && IsUpper(key[k])
    ensures Lookup(NormaliseNames(rec), key) == JNull
  {
    LookupFirst(NormaliseNames(rec), key);
  }

  /** The columns of the frame built from `rows`: every field name of every
      record. */
  function Columns(rows: seq<Record>): set<string>
  {
    set i, j | 0 <= i < |rows| && 0 <= j < |rows[i]| :: rows[i][j].name
  }

  /** A name that is not a column is null in every row. */
  lemma AbsentColumnIsNull(rows: seq<Record>, key: string, i: nat)
    requires key !in Columns(rows)
    requires i < |rows|
    ensures Lookup(rows[i], key) == JNull
  {
    forall j | 0 <= j < |rows[i]| ensures rows[i][j].name != key {
      assert rows[i][j].name in Columns(rows);
    }
    LookupFirst(rows[i], key);
  }
}
