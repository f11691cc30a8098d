/**
 Dotted paths into JSON documents: getValueByPath, setValueByPath and removeFieldByPath of
 pkg/integration/processors.go, on value trees.
 */
module JsonPath {
  import opened Strings

  datatype Json = Null | Scalar(text: string) | Array(items: seq<Json>) | Object(fields: map<string, Json>)

  type Fields = map<string, Json>

  /** A missing field reads as null. */
  function Field(v: Json, part: string): Json {
    if v.Object? && part in v.fields then v.fields[part] else Null
  }

  function Read(v: Json, parts: seq<string>): Json
    decreases |parts|
  {
    if parts == [] then v else Read(Field(v, parts[0]), parts[1..])
  }

  function Get(data: Fields, path: string): Json {
    if path == "" then Object(data) else Read(Object(data), Split(path, '.'))
  }

  /** Missing objects on the way are created; anything else on the way stops the walk. */
  function Write(data: Fields, parts: seq<string>, value: Json): Fields
    requires parts != []
    decreases |parts|
  {
    if |parts| == 1 then data[parts[0] := value]
    else if parts[0] !in data then data[parts[0] := Object(Write(map[], parts[1..], value))]
    else if data[parts[0]].Object? then data[parts[0] := Object(Write(data[parts[0]].fields, parts[1..], value))]
    else data
  }

  function Set(data: Fields, path: string, value: Json): Fields {
    if path == "" then data else Write(data, Split(path, '.'), value)
  }

  function Erase(data: Fields, parts: seq<string>): Fields
    requires parts != []
    decreases |parts|
  {
    if |parts| == 1 then data - {parts[0]}
    else if parts[0] in data && data[parts[0]].Object?
    then data[parts[0] := Object(Erase(data[parts[0]].fields, parts[1..]))]
    else data
  }

  function Remove(data: Fields, path: string): Fields {
    if path == "" then data else Erase(data, Split(path, '.'))
  }

  method GetValueByPath(data: Fields, path: string) returns (r: Json)
    ensures r == Get(data, path)
  {
    if path == "" {
      return Object(data);
    }
    var parts := Split(path, '.');
    var current := Object(data);
    for i := 0 to |parts|
      invariant Read(Object(data), parts) == Read(current, parts[i..])
    {
      assert parts[i..][0] == parts[i] && parts[i..][1..] == parts[i + 1..];
      if current.Object? {
        current := if parts[i] in current.fields then current.fields[parts[i]] else Null;
      } else {
        ReadOfNonObject(current, parts[i..]);
        return Null;
      }
    }
    r := current;
  }

  lemma {:induction false} ReadOfNonObject(v: Json, parts: seq<string>)
    requires parts != [] && !v.Object?
    ensures Read(v, parts) == Null
    decreases |parts|
  {
    if |parts| > 1 {
      ReadOfNonObject(Null, parts[1..]);
    }
  }

  lemma ReadStep(v: Json, parts: seq<string>)
    requires parts != []
    ensures Read(v, parts) == Read(Field(v, parts[0]), parts[1..])
  {
  }

  // ----- When a write is stopped -----

  /** Some field on the way, before the last part, exists and is not an object. */
  predicate Stopped(data: Fields, parts: seq<string>)
    decreases |parts|
  {
    |parts| > 1 && parts[0] in data
    && (!data[parts[0]].Object? || Stopped(data[parts[0]].fields, parts[1..]))
  }

  lemma {:induction false} NewObjectsNeverStop(parts: seq<string>)
    ensures !Stopped(map[], parts)
  {
  }

  /** A write that is stopped leaves the document exactly as it was; nothing is created first. */
  lemma {:induction false} StoppedWriteChangesNothing(data: Fields, parts: seq<string>, value: Json)
    requires Stopped(data, parts)
    ensures Write(data, parts, value) == data
    decreases |parts|
  {
    if data[parts[0]].Object? {
      StoppedWriteChangesNothing(data[parts[0]].fields, parts[1..], value);
      assert data[parts[0] := data[parts[0]]] == data;
    }
  }

  /** A write that is not stopped is read back, also below the written value. */
  lemma {:induction false} WriteIsReadBack(data: Fields, parts: seq<string>, value: Json, below: seq<string>)
    requires parts != [] && !Stopped(data, parts)
    ensures Read(Object(Write(data, parts, value)), parts + below) == Read(value, below)
    decreases |parts|
  {
    var w := Write(data, parts, value);
    var rest := parts[1..];
    assert (parts + below)[1..] == rest + below && (parts + below)[0] == parts[0];
    ReadStep(Object(w), parts + below);
    if |parts| == 1 {
      assert rest + below == below;
    } else if parts[0] !in data {
      NewObjectsNeverStop(rest);
      WriteIsReadBack(map[], rest, value, below);
    } else {
      WriteIsReadBack(data[parts[0]].fields, rest, value, below);
    }
  }

  lemma {:induction false} StoppedReadIsNull(data: Fields, parts: seq<string>)
    requires Stopped(data, parts)
    ensures Read(Object(data), parts) == Null
    decreases |parts|
  {
    ReadStep(Object(data), parts);
    if data[parts[0]].Object? {
      StoppedReadIsNull(data[parts[0]].fields, parts[1..]);
    } else {
      ReadOfNonObject(data[parts[0]], parts[1..]);
    }
  }

  /**
   Setting a path either changes nothing at all or is read back; which of the two is decided by whether the way is
   stopped by an existing value that is not an object.  The empty path is the whole document, which is never replaced.
   */
  lemma SetIsReadBackIff(data: Fields, path: string, value: Json)
    ensures path == "" || Stopped(data, Split(path, '.')) ==> Set(data, path, value) == data
    ensures Get(Set(data, path, value), path) == value
            <==> if path == "" then value == Object(data) else !Stopped(data, Split(path, '.')) || value == Null
  {
    var parts := Split(path, '.');
    if path == "" {
    } else if Stopped(data, parts) {
      StoppedWriteChangesNothing(data, parts, value);
      StoppedReadIsNull(data, parts);
    } else {
      WriteIsReadBack(data, parts, value, []);
      assert parts + [] == parts;
    }
  }

  // ----- Frames -----

  /** Neither path is a prefix of the other. */
  predicate Apart(p: seq<string>, q: seq<string>) {
    !(p <= q) && !(q <= p)
  }

  lemma ApartTails(p: seq<string>, q: seq<string>)
    requires Apart(p, q) && p[0] == q[0]
    ensures |p| > 1 && |q| > 1 && Apart(p[1..], q[1..])
  {
    assert p == [p[0]] + p[1..] && q == [q[0]] + q[1..];
  }

  lemma ApartIsNonEmpty(p: seq<string>, q: seq<string>)
    requires Apart(p, q)
    ensures p != [] && q != []
  {
  }

  lemma {:induction false} NothingToRead(parts: seq<string>)
    requires parts != []
    ensures Read(Object(map[]), parts) == Null && Read(Null, parts) == Null
  {
    ReadOfNonObject(Null, parts);
    ReadStep(Object(map[]), parts);
    if |parts| > 1 {
      ReadOfNonObject(Null, parts[1..]);
    }
  }

  /** A write does not disturb any path that is neither a prefix nor an extension of the written one. */
  lemma {:induction false} WriteFrame(data: Fields, p: seq<string>, value: Json, q: seq<string>)
    requires Apart(p, q)
    ensures p != [] && Read(Object(Write(data, p, value)), q) == Read(Object(data), q)
    decreases |p|
  {
    ApartIsNonEmpty(p, q);
    ReadStep(Object(data), q);
    ReadStep(Object(Write(data, p, value)), q);
    if p[0] == q[0] {
      ApartTails(p, q);
      if p[0] !in data {
        WriteFrame(map[], p[1..], value, q[1..]);
        NothingToRead(q[1..]);
      } else if data[p[0]].Object? {
        WriteFrame(data[p[0]].fields, p[1..], value, q[1..]);
      }
    }
  }

  /** Removing a path makes it, and everything below it, read as null. */
  lemma {:induction false} EraseIsReadBack(data: Fields, parts: seq<string>, below: seq<string>)
    requires parts != []
    ensures Read(Object(Erase(data, parts)), parts + below) == Null
    decreases |parts|
  {
    var rest := parts[1..];
    assert (parts + below)[1..] == rest + below && (parts + below)[0] == parts[0];
    ReadStep(Object(Erase(data, parts)), parts + below);
    if |parts| == 1 {
      if below != [] {
        ReadOfNonObject(Null, rest + below);
      }
    } else if parts[0] in data && data[parts[0]].Object? {
      EraseIsReadBack(data[parts[0]].fields, rest, below);
    } else {
      ReadOfNonObject(Field(Object(data), parts[0]), rest + below);
    }
  }

  lemma {:induction false} EraseFrame(data: Fields, p: seq<string>, q: seq<string>)
    requires Apart(p, q)
    ensures p != [] && Read(Object(Erase(data, p)), q) == Read(Object(data), q)
    decreases |p|
  {
    ApartIsNonEmpty(p, q);
    ReadStep(Object(data), q);
    ReadStep(Object(Erase(data, p)), q);
    if p[0] == q[0] {
      ApartTails(p, q);
      if p[0] in data && data[p[0]].Object? {
        EraseFrame(data[p[0]].fields, p[1..], q[1..]);
      }
    }
  }

  /** The same laws for the calls: a path that is neither prefix nor extension reads as before, a removed one as null. */
  lemma SetAndRemoveLaws(data: Fields, path: string, value: Json, other: string)
    ensures path == "" || (other != "" && Apart(Split(path, '.'), Split(other, '.'))) ==>
              Get(Set(data, path, value), other) == Get(data, other) == Get(Remove(data, path), other)
    ensures path != "" && other != "" && Split(path, '.') <= Split(other, '.') ==> Get(Remove(data, path), other) == Null
  {
    var p, q := Split(path, '.'), Split(other, '.');
    if Apart(p, q) {
      WriteFrame(data, p, value, q);
      EraseFrame(data, p, q);
    }
    if p <= q {
      EraseIsReadBack(data, p, q[|p|..]);
      assert p + q[|p|..] == q;
    }
  }

  // ----- Writing twice, and undoing a write -----

  /** The last write wins and leaves no trace of the first. */
  lemma {:induction false} WriteTwice(data: Fields, parts: seq<string>, first: Json, second: Json)
    requires parts != []
    ensures Write(Write(data, parts, first), parts, second) == Write(data, parts, second)
    decreases |parts|
  {
    if |parts| > 1 {
      if parts[0] !in data {
        WriteTwice(map[], parts[1..], first, second);
      } else if data[parts[0]].Object? {
        WriteTwice(data[parts[0]].fields, parts[1..], first, second);
      }
    }
  }

  /** The object that holds the last field exists, and the field does not. */
  predicate Absent(data: Fields, parts: seq<string>)
    requires parts != []
    decreases |parts|
  {
    if |parts| == 1 then parts[0] !in data
    else parts[0] in data && data[parts[0]].Object? && Absent(data[parts[0]].fields, parts[1..])
  }

  /** Removing a field that a write added to an existing object restores the document. */
  lemma {:induction false} EraseUndoesWrite(data: Fields, parts: seq<string>, value: Json)
    requires parts != [] && Absent(data, parts)
    ensures Erase(Write(data, parts, value), parts) == data
    decreases |parts|
  {
    if |parts| == 1 {
      assert data[parts[0] := value] - {parts[0]} == data;
    } else {
      EraseUndoesWrite(data[parts[0]].fields, parts[1..], value);
      var inner := Write(data[parts[0]].fields, parts[1..], value);
      assert data[parts[0] := Object(inner)][parts[0] := data[parts[0]]] == data;
    }
  }
}
