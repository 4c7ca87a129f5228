/** A line format of the log's records that meets what ActivityLogTears asks of one: such formats exist. */
module ActivityLogCodec {
  import opened Options
  import opened StreamText
  import opened ActivityLog
  import opened ActivityLogTears
  import opened ByteStrings
  import opened TornWrites

  // ---------- a record as numbers ----------

  function KeyNumbers(k: Key): (r: seq<int>)
    ensures |r| == 2
  {
    match k
    case TurnId => [0, 0]
    case SegmentId => [1, 0]
    case AssistantPhase => [2, 0]
    case AssistantReplacement => [3, 0]
    case OtherKey(name) => [4, name]
  }

  function ValueNumbers(v: Value): (r: seq<int>)
    ensures |r| == 2
  {
    match v
    case Progress => [0, 0]
    case Final => [1, 0]
    case Name(id) => [2, id]
    case EmptyName => [3, 0]
    case True => [4, 0]
    case OtherValue(id) => [5, id]
    case ArrayValue(id) => [6, id]
  }

  function IdNumbers(id: Id): (r: seq<int>)
    ensures |r| == 4
  {
    match id
    case Given(n) => [0, n, 0, 0]
    case Streaming(uuid) => [1, uuid, 0, 0]
    case Replacement(task, segment) => [2, task] + ValueNumbers(segment)
  }

  function TurnNumbers(turn: Option<Value>): (r: seq<int>)
    ensures |r| == 3
  {
    if turn.None? then [0, 0, 0] else [1] + ValueNumbers(turn.value)
  }

  function TextNumbers(t: Text): seq<int> {
    if t == [] then [0] else [1, t[0] as int] + TextNumbers(t[1..])
  }

  /** The entries of a map, in some order. */
  ghost function Pairs(m: Metadata): (r: seq<(Key, Value)>)
    ensures forall e :: e in r <==> e.0 in m && m[e.0] == e.1
  {
    if m == map[] then [] else var k :| k in m; [(k, m[k])] + Pairs(m - {k})
  }

  /** One entry, behind the sign that there is one. */
  function EntryNumbers(e: (Key, Value)): (r: seq<int>)
    ensures |r| == 5 && r[0] == 1
  {
    [1] + KeyNumbers(e.0) + ValueNumbers(e.1)
  }

  function PairNumbers(pairs: seq<(Key, Value)>): seq<int> {
    if pairs == [] then [0] else EntryNumbers(pairs[0]) + PairNumbers(pairs[1..])
  }

  ghost function ActivityNumbers(a: Activity): seq<int> {
    IdNumbers(a.id) + [a.task, if a.assistant then 1 else 0, a.createdAt] +
    (TextNumbers(a.text) + PairNumbers(Pairs(a.metadata)))
  }

  ghost function ListNumbers(list: seq<Activity>): seq<int> {
    if list == [] then [0] else [1] + (ActivityNumbers(list[0]) + ListNumbers(list[1..]))
  }

  ghost function RecordNumbers(r: Record): seq<int> {
    match r
    case Append(sequence, a) => [0, sequence] + ActivityNumbers(a)
    case AssistantDelta(sequence, task, turn, text, metadata) =>
      [1, sequence, task] + TurnNumbers(turn) + (TextNumbers(text) + PairNumbers(Pairs(metadata)))
    case SegmentCompleted(sequence, task, segment, phase, metadata) =>
      [2, sequence, task] + ValueNumbers(segment) + ValueNumbers(phase) + PairNumbers(Pairs(metadata))
    case Snapshot(sequence, activities) => [3, sequence] + ListNumbers(activities)
  }

  // ---------- the numbers tell the record ----------

  lemma Front(a: seq<int>, s: seq<int>, b: seq<int>, t: seq<int>)
    requires a + s == b + t && |a| == |b|
    ensures a == b && s == t
  {
    assert a == (a + s)[..|a|] && s == (a + s)[|a|..];
  }

  lemma {:induction false} TextRead(x: Text, s: seq<int>, y: Text, t: seq<int>)
    requires TextNumbers(x) + s == TextNumbers(y) + t
    ensures x == y && s == t
  {
    assert (TextNumbers(x) + s)[0] == (TextNumbers(y) + t)[0];
    if x == [] {
      Front([0], s, [0], t);
    } else {
      assert TextNumbers(x) + s == [1, x[0] as int] + (TextNumbers(x[1..]) + s);
      assert TextNumbers(y) + t == [1, y[0] as int] + (TextNumbers(y[1..]) + t);
      Front([1, x[0] as int], TextNumbers(x[1..]) + s, [1, y[0] as int], TextNumbers(y[1..]) + t);
      assert [1, x[0] as int][1] == [1, y[0] as int][1];
      TextRead(x[1..], s, y[1..], t);
    }
  }

  lemma KeyRead(x: Key, y: Key)
    requires KeyNumbers(x) == KeyNumbers(y)
    ensures x == y
  {
    assert KeyNumbers(x)[0] == KeyNumbers(y)[0] && KeyNumbers(x)[1] == KeyNumbers(y)[1];
  }

  lemma ValueRead(x: Value, y: Value)
    requires ValueNumbers(x) == ValueNumbers(y)
    ensures x == y
  {
    assert ValueNumbers(x)[0] == ValueNumbers(y)[0] && ValueNumbers(x)[1] == ValueNumbers(y)[1];
  }

  lemma EntryRead(x: (Key, Value), y: (Key, Value))
    requires EntryNumbers(x) == EntryNumbers(y)
    ensures x == y
  {
    hide KeyNumbers, ValueNumbers;
    Front([1] + KeyNumbers(x.0), ValueNumbers(x.1), [1] + KeyNumbers(y.0), ValueNumbers(y.1));
    Front([1], KeyNumbers(x.0), [1], KeyNumbers(y.0));
    KeyRead(x.0, y.0);
    ValueRead(x.1, y.1);
  }

  lemma Regroup(a: seq<int>, b: seq<int>, c: seq<int>)
    ensures a + b + c == a + (b + c)
  {
  }

  lemma {:induction false} PairsRead(x: seq<(Key, Value)>, s: seq<int>, y: seq<(Key, Value)>, t: seq<int>)
    requires PairNumbers(x) + s == PairNumbers(y) + t
    ensures x == y && s == t
  {
    hide EntryNumbers;
    assert (PairNumbers(x) + s)[0] == (PairNumbers(y) + t)[0];
    if x == [] {
      Front([0], s, [0], t);
    } else {
      var p, q := PairNumbers(x[1..]), PairNumbers(y[1..]);
      Regroup(EntryNumbers(x[0]), p, s);
      Regroup(EntryNumbers(y[0]), q, t);
      Front(EntryNumbers(x[0]), p + s, EntryNumbers(y[0]), q + t);
      EntryRead(x[0], y[0]);
      PairsRead(x[1..], s, y[1..], t);
    }
  }

  lemma IdRead(x: Id, y: Id)
    requires IdNumbers(x) == IdNumbers(y)
    ensures x == y
  {
    assert IdNumbers(x)[0] == IdNumbers(y)[0] && IdNumbers(x)[1] == IdNumbers(y)[1];
    if x.Replacement? {
      Front([2, x.task], ValueNumbers(x.segment), [2, y.task], ValueNumbers(y.segment));
      ValueRead(x.segment, y.segment);
    }
  }

  lemma TurnRead(x: Option<Value>, y: Option<Value>)
    requires TurnNumbers(x) == TurnNumbers(y)
    ensures x == y
  {
    assert TurnNumbers(x)[0] == TurnNumbers(y)[0];
    if x.Some? {
      Front([1], ValueNumbers(x.value), [1], ValueNumbers(y.value));
      ValueRead(x.value, y.value);
    }
  }

  lemma SamePairs(x: Metadata, y: Metadata)
    requires Pairs(x) == Pairs(y)
    ensures x == y
  {
    forall k ensures k in x <==> k in y {
      if k in x { assert (k, x[k]) in Pairs(y); }
      if k in y { assert (k, y[k]) in Pairs(x); }
    }
    forall k | k in x ensures x[k] == y[k] { assert (k, x[k]) in Pairs(y); }
  }

  lemma MetadataRead(x: Metadata, s: seq<int>, y: Metadata, t: seq<int>)
    requires PairNumbers(Pairs(x)) + s == PairNumbers(Pairs(y)) + t
    ensures x == y && s == t
  {
    PairsRead(Pairs(x), s, Pairs(y), t);
    SamePairs(x, y);
  }

  /** A text and metadata behind it. */
  lemma BodyRead(x: Text, m: Metadata, s: seq<int>, y: Text, n: Metadata, t: seq<int>)
    requires TextNumbers(x) + PairNumbers(Pairs(m)) + s == TextNumbers(y) + PairNumbers(Pairs(n)) + t
    ensures x == y && m == n && s == t
  {
    hide TextNumbers, PairNumbers, Pairs;
    assert TextNumbers(x) + PairNumbers(Pairs(m)) + s == TextNumbers(x) + (PairNumbers(Pairs(m)) + s);
    assert TextNumbers(y) + PairNumbers(Pairs(n)) + t == TextNumbers(y) + (PairNumbers(Pairs(n)) + t);
    TextRead(x, PairNumbers(Pairs(m)) + s, y, PairNumbers(Pairs(n)) + t);
    MetadataRead(m, s, n, t);
  }

  lemma ActivityRead(x: Activity, s: seq<int>, y: Activity, t: seq<int>)
    requires ActivityNumbers(x) + s == ActivityNumbers(y) + t
    ensures x == y && s == t
  {
    var a := IdNumbers(x.id) + [x.task, if x.assistant then 1 else 0, x.createdAt];
    var b := IdNumbers(y.id) + [y.task, if y.assistant then 1 else 0, y.createdAt];
    var p := TextNumbers(x.text) + PairNumbers(Pairs(x.metadata));
    var q := TextNumbers(y.text) + PairNumbers(Pairs(y.metadata));
    assert ActivityNumbers(x) + s == a + (p + s) && ActivityNumbers(y) + t == b + (q + t);
    hide TextNumbers, PairNumbers, Pairs, IdNumbers;
    Front(a, p + s, b, q + t);
    Front(IdNumbers(x.id), a[4..], IdNumbers(y.id), b[4..]);
    IdRead(x.id, y.id);
    assert a[4] == b[4] && a[5] == b[5] && a[6] == b[6];
    BodyRead(x.text, x.metadata, s, y.text, y.metadata, t);
  }

  lemma {:induction false} ListRead(x: seq<Activity>, y: seq<Activity>)
    requires ListNumbers(x) == ListNumbers(y)
    ensures x == y
  {
    assert ListNumbers(x)[0] == ListNumbers(y)[0];
    if x != [] {
      Front([1], ActivityNumbers(x[0]) + ListNumbers(x[1..]), [1], ActivityNumbers(y[0]) + ListNumbers(y[1..]));
      ActivityRead(x[0], ListNumbers(x[1..]), y[0], ListNumbers(y[1..]));
      ListRead(x[1..], y[1..]);
    }
  }

  lemma RecordRead(x: Record, y: Record)
    requires RecordNumbers(x) == RecordNumbers(y)
    ensures x == y
  {
    hide TextNumbers, PairNumbers, Pairs, ActivityNumbers, ListNumbers, ValueNumbers, TurnNumbers;
    assert RecordNumbers(x)[0] == RecordNumbers(y)[0] && RecordNumbers(x)[1] == RecordNumbers(y)[1];
    match x
    case Append(sequence, a) =>
      Front([0, sequence], ActivityNumbers(a), [0, sequence], ActivityNumbers(y.activity));
      assert ActivityNumbers(a) + [] == ActivityNumbers(a)
        && ActivityNumbers(y.activity) + [] == ActivityNumbers(y.activity);
      ActivityRead(a, [], y.activity, []);
    case AssistantDelta(_, _, _, _, _) => DeltaRead(x, y);
    case SegmentCompleted(_, _, _, _, _) => CompletionRead(x, y);
    case Snapshot(sequence, activities) =>
      Front([3, sequence], ListNumbers(activities), [3, sequence], ListNumbers(y.activities));
      ListRead(activities, y.activities);
  }

  lemma DeltaRead(x: Record, y: Record)
    requires x.AssistantDelta? && y.AssistantDelta? && RecordNumbers(x) == RecordNumbers(y)
    ensures x == y
  {
    hide TextNumbers, PairNumbers, Pairs, TurnNumbers;
    var a, b := [1, x.sequence, x.task] + TurnNumbers(x.turn), [1, y.sequence, y.task] + TurnNumbers(y.turn);
    var p := TextNumbers(x.text) + PairNumbers(Pairs(x.metadata));
    var q := TextNumbers(y.text) + PairNumbers(Pairs(y.metadata));
    Front(a, p, b, q);
    assert a[1] == b[1] && a[2] == b[2];
    Front([1, x.sequence, x.task], TurnNumbers(x.turn), [1, y.sequence, y.task], TurnNumbers(y.turn));
    TurnRead(x.turn, y.turn);
    assert p + [] == p && q + [] == q;
    BodyRead(x.text, x.metadata, [], y.text, y.metadata, []);
  }

  lemma CompletionRead(x: Record, y: Record)
    requires x.SegmentCompleted? && y.SegmentCompleted? && RecordNumbers(x) == RecordNumbers(y)
    ensures x == y
  {
    hide PairNumbers, Pairs, ValueNumbers;
    var head, head' := [2, x.sequence, x.task], [2, y.sequence, y.task];
    var a, b := head + ValueNumbers(x.segment), head' + ValueNumbers(y.segment);
    var p, q := PairNumbers(Pairs(x.metadata)), PairNumbers(Pairs(y.metadata));
    Front(a + ValueNumbers(x.phase), p, b + ValueNumbers(y.phase), q);
    Front(a, ValueNumbers(x.phase), b, ValueNumbers(y.phase));
    Front(head, ValueNumbers(x.segment), head', ValueNumbers(y.segment));
    assert head[1] == head'[1] && head[2] == head'[2];
    ValueRead(x.segment, y.segment);
    ValueRead(x.phase, y.phase);
    assert p + [] == p && q + [] == q;
    MetadataRead(x.metadata, [], y.metadata, []);
  }

  // ---------- the numbers as a line ----------

  const MINUS: Byte := 45
  const ONE: Byte := 49
  const COMMA: Byte := 44
  const END: Byte := 93

  /** Ones and a comma. */
  function NatBytes(n: nat): Bytes { if n == 0 then [COMMA] else [ONE] + NatBytes(n - 1) }

  function IntBytes(n: int): Bytes { if n < 0 then [MINUS] + NatBytes(-n) else NatBytes(n) }

  function NumberBytes(numbers: seq<int>): Bytes {
    if numbers == [] then [] else IntBytes(numbers[0]) + NumberBytes(numbers[1..])
  }

  lemma {:induction false} NatRead(m: nat, s: Bytes, n: nat, t: Bytes)
    requires NatBytes(m) + s == NatBytes(n) + t
    ensures m == n && s == t
  {
    assert (NatBytes(m) + s)[0] == (NatBytes(n) + t)[0];
    assert (NatBytes(m) + s)[1..] == (NatBytes(n) + t)[1..];
    if m == 0 {
      assert ([COMMA] + s)[1..] == s && ([COMMA] + t)[1..] == t;
    } else {
      assert (NatBytes(m) + s)[1..] == NatBytes(m - 1) + s && (NatBytes(n) + t)[1..] == NatBytes(n - 1) + t;
      NatRead(m - 1, s, n - 1, t);
    }
  }

  lemma NatFirst(n: nat)
    ensures NatBytes(n) != [] && NatBytes(n)[0] != MINUS
  {
  }

  lemma Behind(b: Byte, s: Bytes, t: Bytes)
    ensures ([b] + s + t)[1..] == s + t
  {
  }

  lemma IntRead(m: int, s: Bytes, n: int, t: Bytes)
    requires IntBytes(m) + s == IntBytes(n) + t
    ensures m == n && s == t
  {
    NatFirst(if m < 0 then -m else m);
    NatFirst(if n < 0 then -n else n);
    hide NatBytes;
    assert (IntBytes(m) + s)[0] == (IntBytes(n) + t)[0];
    assert m < 0 <==> n < 0;
    if m < 0 {
      Behind(MINUS, NatBytes(-m), s);
      Behind(MINUS, NatBytes(-n), t);
      NatRead(-m, s, -n, t);
    } else {
      NatRead(m, s, n, t);
    }
  }

  lemma {:induction false} NumbersRead(x: seq<int>, y: seq<int>)
    requires NumberBytes(x) == NumberBytes(y)
    ensures x == y
  {
    if x != [] && y != [] {
      IntRead(x[0], NumberBytes(x[1..]), y[0], NumberBytes(y[1..]));
      NumbersRead(x[1..], y[1..]);
    }
  }

  predicate Inner(b: Byte) { b == MINUS || b == ONE || b == COMMA }

  lemma {:induction false} NatInner(n: nat)
    ensures forall b :: b in NatBytes(n) ==> Inner(b)
  {
    if n > 0 { NatInner(n - 1); }
  }

  lemma {:induction false} NumbersInner(numbers: seq<int>)
    ensures forall b :: b in NumberBytes(numbers) ==> Inner(b)
  {
    if numbers != [] {
      NatInner(if numbers[0] < 0 then -numbers[0] else numbers[0]);
      NumbersInner(numbers[1..]);
    }
  }

  // ---------- the format ----------

  ghost function Encode(r: Record): Line { NumberBytes(RecordNumbers(r)) + [END] }

  ghost function Decode(line: Line): Option<Record> {
    if r: Record :| Readable(r) && Encode(r) == line then Some(r) else None
  }

  lemma EncodeRead(x: Record, y: Record)
    requires Encode(x) == Encode(y)
    ensures x == y
  {
    hide NumberBytes, RecordNumbers;
    assert Encode(x)[..|Encode(x)| - 1] == NumberBytes(RecordNumbers(x));
    assert Encode(y)[..|Encode(y)| - 1] == NumberBytes(RecordNumbers(y));
    NumbersRead(RecordNumbers(x), RecordNumbers(y));
    RecordRead(x, y);
  }

  lemma RoundTrip(r: Record)
    ensures Decode(Encode(r)) == if Readable(r) then Some(r) else None
  {
    hide Encode;
    forall x | Encode(x) == Encode(r) ensures x == r { EncodeRead(x, r); }
  }

  lemma EndsInEnd(r: Record)
    ensures Encode(r) != [] && Encode(r)[|Encode(r)| - 1] == END
  {
    hide NumberBytes, RecordNumbers;
  }

  /** The mark of the end stands at the end of a line alone. */
  lemma InnerByte(r: Record, i: nat)
    requires i < |Encode(r)| - 1
    ensures Inner(Encode(r)[i])
  {
    hide NumberBytes, RecordNumbers;
    NumbersInner(RecordNumbers(r));
    assert Encode(r)[i] == NumberBytes(RecordNumbers(r))[i];
  }

  lemma NotPrefix(r: Record, j: nat)
    requires j < |Encode(r)|
    ensures Decode(Encode(r)[..j]) == None
  {
    hide Encode;
    forall x ensures Encode(x) != Encode(r)[..j] {
      EndsInEnd(x);
      if Encode(x) == Encode(r)[..j] { InnerByte(r, |Encode(x)| - 1); }
    }
  }

  lemma NotJoined(r: Record, s: Record)
    ensures Decode(Encode(r) + Encode(s)) == None
  {
    hide Encode;
    EndsInEnd(r);
    EndsInEnd(s);
    forall x ensures Encode(x) != Encode(r) + Encode(s) {
      if Encode(x) == Encode(r) + Encode(s) { InnerByte(x, |Encode(r)| - 1); }
    }
  }

  lemma EncodeIsLine(r: Record)
    ensures Encode(r) != [] && NEWLINE !in Encode(r) && RETURN !in Encode(r)
  {
    hide Encode;
    EndsInEnd(r);
    forall i | 0 <= i < |Encode(r)| - 1 ensures Inner(Encode(r)[i]) { InnerByte(r, i); }
  }

  /** Read so, such lines are a format the log can have. */
  lemma FormatExists()
    ensures exists c: Codec<Record> :: IsCodec(c)
  {
    var c := Codec(r => Encode(r), line => Decode(line), (b: Byte) => false, (r: Record) => r.sequence,
      (r: Record) => Readable(r));
    hide Encode, Decode;
    forall r ensures c.decode(c.encode(r)) == if c.accepts(r) then Some(r) else None { RoundTrip(r); }
    forall r ensures OneLine(c, c.encode(r)) { EncodeIsLine(r); }
    forall r, j {:trigger c.encode(r)[..j]} | 0 <= j < |c.encode(r)| ensures c.decode(c.encode(r)[..j]) == None {
      NotPrefix(r, j);
    }
    forall r, s {:trigger c.encode(r) + c.encode(s)} ensures c.decode(c.encode(r) + c.encode(s)) == None {
      NotJoined(r, s);
    }
    assert IsCodec(c);
  }
}
