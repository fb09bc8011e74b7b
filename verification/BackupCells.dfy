/**
 * How a snapshot writes a database value as JSON, and what the restore makes of it (src/backups/backup-snapshot.ts).
 */
module BackupCells {
  import opened Options
  import opened Digits
  import opened Money

  datatype Json =
    | JNull
    | JBool(truth: bool)
    | JNum(number: int)
    | JStr(chars: string)
    | JArr(items: seq<Json>)
    | JObj(fields: seq<Field>)

  datatype Field = Field(key: string, value: Json)

  datatype Kind = TextKind | IntKind | BoolKind | BigIntKind | DateKind | DecimalKind | JsonKind

  /** A column's value. Dates are given by their ISO text, decimals in hundredths. */
  datatype Cell =
    | Null
    | Text(text: string)
    | Int(number: int)
    | Bool(truth: bool)
    | BigInt(big: int)
    | Date(iso: string)
    | Decimal(centi: int)
    | JsonCell(json: Json)

  predicate HasKind(c: Cell, k: Kind) {
    match c
    case Null => true
    case Text(_) => k.TextKind?
    case Int(_) => k.IntKind?
    case Bool(_) => k.BoolKind?
    case BigInt(_) => k.BigIntKind?
    case Date(_) => k.DateKind?
    case Decimal(_) => k.DecimalKind?
    case JsonCell(_) => k.JsonKind?
  }

  /** toString() of a bigint, and BigInt(text) of such a text. */
  function IntText(v: int): string { Signed(v, Print(Abs(v))) }

  function ParseInt(s: string): Option<int> {
    var negative := s != "" && s[0] == '-';
    var digits := if negative then s[1..] else s;
    if digits == "" || !AllDigits(digits) then None
    else Some(if negative then -(Value(digits) as int) else Value(digits))
  }

  lemma IntTextReads(v: int)
    ensures ParseInt(IntText(v)) == Some(v)
  {
    var p := Print(Abs(v));
    PrintReads(Abs(v));
    if v < 0 {
      assert ("-" + p)[1..] == p;
    } else {
      assert IsDigit(p[0]);
    }
  }

  function Tag(key: string, text: string): Json { JObj([Field(key, JStr(text))]) }

  /** encodeValue of what findMany returned; a JSON column gives its JSON, and SQL's null and JSON's are both null. */
  function Encode(c: Cell): Json {
    match c
    case Null => JNull
    case Text(t) => JStr(t)
    case Int(n) => JNum(n)
    case Bool(b) => JBool(b)
    case BigInt(v) => Tag("$bigint", IntText(v))
    case Date(iso) => Tag("$date", iso)
    case Decimal(v) => Tag("$decimal", DecimalText(v))
    case JsonCell(j) => j
  }

  /** What decodeValue returns. */
  datatype Decoded = Big(big: int) | Moment(iso: string) | Plain(json: Json) | Throws

  predicate IsTagged(j: Json) {
    j.JObj? && |j.fields| == 1 && j.fields[0].key in {"$bigint", "$date", "$decimal"}
  }

  function Decode(j: Json): Decoded {
    if !IsTagged(j) then Plain(j)
    else
      var v := j.fields[0].value;
      if j.fields[0].key == "$decimal" then Plain(v)
      else if !v.JStr? then Throws
      else if j.fields[0].key == "$date" then Moment(v.chars)
      else
        match ParseInt(v.chars)
        case None => Throws
        case Some(n) => Big(n)
  }

  /** createMany on a column; None when the driver refuses the value. In a JSON column null becomes SQL's null. */
  function Store(k: Kind, d: Decoded): Option<Cell> {
    match d
    case Big(n) => if k.BigIntKind? then Some(BigInt(n)) else None
    case Moment(t) => if k.DateKind? then Some(Date(t)) else if k.JsonKind? then Some(JsonCell(JStr(t))) else None
    case Throws => None
    case Plain(j) =>
      if j.JNull? then Some(Null)
      else if k.JsonKind? then Some(JsonCell(j))
      else if k.TextKind? && j.JStr? then Some(Text(j.chars))
      else if k.IntKind? && j.JNum? then Some(Int(j.number))
      else if k.BoolKind? && j.JBool? then Some(Bool(j.truth))
      else if k.DecimalKind? && j.JStr? && DecimalToCenti(j.chars).Some?
        then Some(Decimal(DecimalToCenti(j.chars).value))
      else None
  }

  function Restored(k: Kind, c: Cell): Option<Cell> { Store(k, Decode(Encode(c))) }

  /** A JSON document that would be mistaken for one of the tags, or for no value at all. */
  predicate Ambiguous(c: Cell) {
    && c.JsonCell?
    && (c.json == JNull || (c.json.JObj? && LooksTagged(c.json.fields)))
  }

  /** One field, under one of the three keys encodeValue makes. */
  predicate LooksTagged(fields: seq<Field>) {
    && |fields| == 1
    && (fields[0].key == "$bigint" || fields[0].key == "$date" || fields[0].key == "$decimal")
  }

  /** A value comes back exactly as it was unless it is an ambiguous JSON document; then it never does. */
  lemma CellComesBackIff(k: Kind, c: Cell)
    requires HasKind(c, k)
    ensures Restored(k, c) == Some(c) <==> !Ambiguous(c)
  {
    match c
    case BigInt(v) => IntTextReads(v);
    case Decimal(v) => DecimalComesBack(v);
    case JsonCell(j) => DocumentComesBackIff(j);
    case _ =>
  }

  lemma DecimalComesBack(v: int)
    ensures Restored(DecimalKind, Decimal(v)) == Some(Decimal(v))
  {
    StoredDecimalReads(v);
    assert Decode(Tag("$decimal", DecimalText(v))) == Plain(JStr(DecimalText(v)));
  }

  lemma DocumentComesBackIff(j: Json)
    ensures Restored(JsonKind, JsonCell(j)) == Some(JsonCell(j)) <==> !j.JNull? && !IsTagged(j)
  {
    if IsTagged(j) { NestedIsSmaller(j); }
  }

  /** An object is not the value of its own field. */
  lemma NestedIsSmaller(j: Json)
    requires j.JObj? && |j.fields| == 1
    ensures j.fields[0].value != j
  {
    assert j.fields[0].value < j.fields[0] < j;
  }

  /** Only a JSON column can come back as something else, and never as another kind of value. */
  lemma KindSurvives(k: Kind, c: Cell)
    requires HasKind(c, k)
    ensures !k.JsonKind? ==> Restored(k, c) == Some(c)
    ensures Restored(k, c).Some? ==> HasKind(Restored(k, c).value, k)
  {
    CellComesBackIff(k, c);
  }
}
