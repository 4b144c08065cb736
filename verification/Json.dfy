/**
  Values as the hub compares them: by their JSON text, one side of it read back from a
  `jsonb` column (supabase/migrations/20260416000000_initial_schema.sql:98). Such a
  column does not keep the order an object's keys were written in: it keeps shorter
  keys first and keys of one length bytewise.

  A value stands here for its text: two texts are the same exactly when the values are,
  fields in the same order. Keys are ASCII.
 */
module Json {
  import opened Text

  datatype Json = Null | Str(text: string) | Num(n: int) | List(items: seq<Json>) | Object(fields: seq<Field>)

  datatype Field = Field(key: string, value: Json)

  /** The order a `jsonb` column keeps keys in. */
  predicate KeyBefore(a: string, b: string) {
    |a| < |b| || (|a| == |b| && !Less(b, a))
  }

  function Insert(f: Field, fields: seq<Field>): (r: seq<Field>)
    ensures |r| == |fields| + 1
  {
    if fields == [] || KeyBefore(f.key, fields[0].key) then [f] + fields
    else [fields[0]] + Insert(f, fields[1..])
  }

  lemma InsertSteps(f: Field, x: Field, rest: seq<Field>)
    ensures Insert(f, []) == [f]
    ensures KeyBefore(f.key, x.key) ==> Insert(f, [x] + rest) == [f, x] + rest
    ensures !KeyBefore(f.key, x.key) ==> Insert(f, [x] + rest) == [x] + Insert(f, rest)
  {
    assert ([x] + rest)[1..] == rest;
    assert [f] + ([x] + rest) == [f, x] + rest;
    assert [f] + [] == [f];
  }

  /** A value written to such a column and read back. */
  function ReadBack(j: Json): Json
    decreases j
  {
    match j
    case List(items) => List(AllReadBack(items))
    case Object(fields) => Object(FieldsReadBack(fields))
    case _ => j
  }

  lemma FieldsReadBackSteps(f: Field, rest: seq<Field>)
    requires f.value.Str?
    ensures FieldsReadBack([f] + rest) == Insert(f, FieldsReadBack(rest)) && FieldsReadBack([]) == []
  {
    assert ([f] + rest)[1..] == rest;
  }

  function AllReadBack(items: seq<Json>): seq<Json>
    decreases items
  {
    if items == [] then [] else [ReadBack(items[0])] + AllReadBack(items[1..])
  }

  function FieldsReadBack(fields: seq<Field>): seq<Field>
    decreases fields
  {
    if fields == [] then []
    else Insert(Field(fields[0].key, ReadBack(fields[0].value)), FieldsReadBack(fields[1..]))
  }

  /** What is stored, once read back, and what is sent have one text. */
  predicate Alike(stored: Json, sent: Json) {
    ReadBack(stored) == sent
  }

  /** Keys in that order, all the way down. */
  predicate InOrder(j: Json)
    decreases j
  {
    match j
    case List(items) => AllInOrder(items)
    case Object(fields) => FieldsInOrder(fields)
    case _ => true
  }

  predicate AllInOrder(items: seq<Json>)
    decreases items
  {
    items == [] || (InOrder(items[0]) && AllInOrder(items[1..]))
  }

  predicate FieldsInOrder(fields: seq<Field>)
    decreases fields
  {
    fields == [] ||
    (InOrder(fields[0].value) && FieldsInOrder(fields[1..]) &&
     (|fields| > 1 ==> KeyBefore(fields[0].key, fields[1].key)))
  }

  lemma {:induction false} LessOneWay(a: string, b: string)
    ensures Less(a, b) ==> !Less(b, a)
  {
    if a != "" && b != "" {
      LessOneWay(a[1..], b[1..]);
    }
  }

  lemma KeyBeforeTotal(a: string, b: string)
    ensures KeyBefore(a, b) || KeyBefore(b, a)
  {
    LessOneWay(a, b);
  }

  lemma {:induction false} InsertInOrder(f: Field, fields: seq<Field>)
    requires InOrder(f.value) && FieldsInOrder(fields)
    ensures FieldsInOrder(Insert(f, fields))
    ensures Insert(f, fields)[0] == f || (fields != [] && Insert(f, fields)[0] == fields[0])
  {
    hide KeyBefore, InOrder;
    if fields == [] {
      assert [f][1..] == [];
    } else {
      KeyBeforeTotal(f.key, fields[0].key);
      if KeyBefore(f.key, fields[0].key) {
        assert ([f] + fields)[1..] == fields;
      } else {
        var rest := Insert(f, fields[1..]);
        InsertInOrder(f, fields[1..]);
        assert ([fields[0]] + rest)[1..] == rest;
      }
    }
  }

  /** What is read back is in order. */
  lemma {:induction false} ReadBackInOrder(j: Json)
    ensures InOrder(ReadBack(j))
    decreases j
  {
    match j
    case List(items) => AllReadBackInOrder(items);
    case Object(fields) => FieldsReadBackInOrder(fields);
    case _ =>
  }

  lemma {:induction false} AllReadBackInOrder(items: seq<Json>)
    ensures AllInOrder(AllReadBack(items))
    decreases items
  {
    if items != [] {
      ReadBackInOrder(items[0]);
      AllReadBackInOrder(items[1..]);
      assert AllReadBack(items)[1..] == AllReadBack(items[1..]);
    }
  }

  lemma {:induction false} FieldsReadBackInOrder(fields: seq<Field>)
    ensures FieldsInOrder(FieldsReadBack(fields))
    decreases fields
  {
    if fields != [] {
      ReadBackInOrder(fields[0].value);
      FieldsReadBackInOrder(fields[1..]);
      InsertInOrder(Field(fields[0].key, ReadBack(fields[0].value)), FieldsReadBack(fields[1..]));
    }
  }

  /** A value already in order is read back as it was written. */
  lemma {:induction false} OrderedReadsBack(j: Json)
    requires InOrder(j)
    ensures ReadBack(j) == j
    decreases j
  {
    match j
    case List(items) => AllOrderedReadBack(items);
    case Object(fields) => FieldsOrderedReadBack(fields);
    case _ =>
  }

  lemma {:induction false} AllOrderedReadBack(items: seq<Json>)
    requires AllInOrder(items)
    ensures AllReadBack(items) == items
    decreases items
  {
    if items != [] {
      OrderedReadsBack(items[0]);
      AllOrderedReadBack(items[1..]);
    }
  }

  lemma {:induction false} FieldsOrderedReadBack(fields: seq<Field>)
    requires FieldsInOrder(fields)
    ensures FieldsReadBack(fields) == fields
    decreases fields
  {
    if fields != [] {
      OrderedReadsBack(fields[0].value);
      FieldsOrderedReadBack(fields[1..]);
      assert fields == [fields[0]] + fields[1..];
    }
  }

  /** A value sent again as it was first written reads as unchanged exactly when its keys are in order. */
  lemma SentAgainAlikeIff(j: Json)
    ensures Alike(j, j) <==> InOrder(j)
  {
    ReadBackInOrder(j);
    if InOrder(j) {
      OrderedReadsBack(j);
    }
  }

  /** A value sent with its keys out of order reads as changed, whatever is stored. */
  lemma OutOfOrderAlwaysDiffers(stored: Json, sent: Json)
    requires !InOrder(sent)
    ensures !Alike(stored, sent)
  {
    ReadBackInOrder(stored);
  }
}
