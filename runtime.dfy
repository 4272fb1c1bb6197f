/** The slice of the .NET runtime that the two property exceptions rely on:
    nullable references, the resource lookup and string formatting they call,
    the `SerializationInfo` bag they write into and read from, and the part of
    `System.Exception` (message, inner exception) that travels with them. */
module Runtime {

  datatype Option<+T> = None | Some(value: T)

  /** A value or the exception that a .NET call throws instead. */
  datatype Result<+T> = Ok(value: T) | Err(fault: Fault) {
    predicate IsFailure() { Err? }
    function PropagateFailure<U>(): Result<U> requires Err? { Err(fault) }
    function Extract(): T requires Ok? { value }
  }

  /** The outcome of a call that returns nothing (`void`) or throws. */
  datatype Outcome = Pass | Fail(fault: Fault)

  /** The exceptions thrown on the paths this model covers. */
  datatype Fault =
    | ArgumentNull(paramName: string)    // ArgumentNullException
    | DuplicateEntry(name: string)       // SerializationException: name already present
    | MissingEntry(name: string)         // SerializationException: name not found
    | InvalidCast(name: string)          // InvalidCastException on a typed read

  /** A non-null .NET object whose contents this model does not look into. */
  type Object(==)

  /** A reference of static type `object`: null, a string, or some other object. */
  datatype Value = Null | Text(s: string) | Boxed(o: Object)

  /** The host's services, injected so that every property holds for any of them:
      `ResourceManager.GetString`, `string.Format` with one argument,
      `Environment.NewLine` and `Object.ToString`. */
  datatype Host = Host(
    getString: string -> string,
    format: (string, string) -> string,
    newLine: string,
    toString: Object -> string)

  /** `s` as the left operand of C#'s string `+`, which reads null as "". */
  function OrEmpty(s: Option<string>): (r: string)
    ensures s.Some? ==> r == s.value
    ensures s.None? ==> r == ""
  {
    if s.Some? then s.value else ""
  }

  /** `v.ToString()` on a non-null reference; a string returns itself. */
  function ToText(h: Host, v: Value): (r: string)
    requires !v.Null?
    ensures v.Text? ==> r == v.s
  {
    match v
    case Text(s) => s
    case Boxed(o) => h.toString(o)
  }

  /** The contents of a `SerializationInfo`: field name to stored reference. */
  type Entries = map<string, Value>

  /** One `AddValue(name, value)` call. */
  type Entry = (string, Value)

  function Names(fields: seq<Entry>): set<string> {
    set i | 0 <= i < |fields| :: fields[i].0
  }

  /** Every field is present in `m` with its value. */
  ghost predicate Holds(m: Entries, fields: seq<Entry>) {
    forall i :: 0 <= i < |fields| ==> fields[i].0 in m && m[fields[i].0] == fields[i].1
  }

  /** No field name is already in `m` and no two fields share a name. */
  ghost predicate Insertable(m: Entries, fields: seq<Entry>) {
    forall i :: 0 <= i < |fields| ==>
      fields[i].0 !in m && forall j :: i < j < |fields| ==> fields[i].0 != fields[j].0
  }

  /** The names of a non-empty list: the first one and those of the rest. */
  lemma NamesCons(fields: seq<Entry>)
    requires fields != []
    ensures Names(fields) == {fields[0].0} + Names(fields[1..])
  {
  }

  /** The bag after the `AddValue` calls `fields`, made in order, and how they ended:
      the first call whose name is already present throws, and the calls after it
      are never made. */
  function AddAll(m: Entries, fields: seq<Entry>): (r: (Entries, Outcome))
    // nothing already in the bag is changed or removed
    ensures forall k :: k in m ==> k in r.0 && r.0[k] == m[k]
    // only the fields' names are added
    ensures r.0.Keys <= m.Keys + Names(fields)
    // the calls all succeed exactly when the names are new and distinct
    ensures r.1 == Pass <==> Insertable(m, fields)
    decreases |fields|
  {
    if fields == [] then (m, Pass)
    else if fields[0].0 in m then (m, Fail(DuplicateEntry(fields[0].0)))
    else
      NamesCons(fields);
      AddAll(m[fields[0].0 := fields[0].1], fields[1..])
  }

  /** When the calls succeed, every field is stored, and the bag gains exactly
      the fields' names; when they fail, a field's name was a duplicate. */
  lemma {:induction false} AddAllStores(m: Entries, fields: seq<Entry>)
    ensures AddAll(m, fields).1 == Pass ==>
      Holds(AddAll(m, fields).0, fields) && AddAll(m, fields).0.Keys == m.Keys + Names(fields)
    ensures AddAll(m, fields).1.Fail? ==>
      AddAll(m, fields).1.fault.DuplicateEntry? && AddAll(m, fields).1.fault.name in Names(fields)
    decreases |fields|
  {
    if fields != [] {
      NamesCons(fields);
      if fields[0].0 !in m {
        AddAllStores(m[fields[0].0 := fields[0].1], fields[1..]);
      }
    }
  }

  /** Running two lists of calls one after the other is running their concatenation. */
  lemma {:induction false} AddAllAppend(m: Entries, f: seq<Entry>, g: seq<Entry>)
    ensures AddAll(m, f + g) ==
      (var r := AddAll(m, f); if r.1.Fail? then r else AddAll(r.0, g))
    decreases |f|
  {
    if f == [] {
      assert f + g == g;
    } else {
      assert (f + g)[0] == f[0];
      assert (f + g)[1..] == f[1..] + g;
      if f[0].0 !in m {
        AddAllAppend(m[f[0].0 := f[0].1], f[1..], g);
      }
    }
  }

  /** `SerializationInfo`: the bag that `GetObjectData` fills and the
      deserialising constructors read. */
  class SerializationInfo {
    var entries: Entries

    constructor ()
      ensures entries == map[]
    {
      entries := map[];
    }

    /** Stores `value` under `name`; a name already present throws and
        leaves the bag as it was. */
    method AddValue(name: string, value: Value) returns (o: Outcome)
      modifies this
      ensures (entries, o) == AddAll(old(entries), [(name, value)])
      ensures o == (if name in old(entries) then Fail(DuplicateEntry(name)) else Pass)
    {
      if name in entries {
        o := Fail(DuplicateEntry(name));
      } else {
        entries := entries[name := value];
        o := Pass;
      }
      assert [(name, value)][1..] == [];
    }
  }

  /** `info.GetString(name)`: null stays null, a string is returned as is and
      any other object is converted with its `ToString`. */
  function GetString(h: Host, m: Entries, name: string): (r: Result<Option<string>>)
    ensures r.Err? <==> name !in m
    ensures name in m && m[name].Text? ==> r == Ok(Some(m[name].s))
    ensures name in m && m[name].Null? ==> r == Ok(None)
  {
    if name !in m then Err(MissingEntry(name))
    else match m[name]
      case Null => Ok(None)
      case Text(s) => Ok(Some(s))
      case Boxed(o) => Ok(Some(h.toString(o)))
  }

  /** `info.GetValue(name, typeof(Object))`: the stored reference itself. */
  function GetValue(m: Entries, name: string): (r: Result<Value>)
    ensures r.Err? <==> name !in m
    ensures name in m ==> r == Ok(m[name])
  {
    if name !in m then Err(MissingEntry(name)) else Ok(m[name])
  }

  /** The state `System.Exception` keeps for its subclasses. */
  datatype ExceptionCore = ExceptionCore(message: Option<string>, inner: Option<Object>)

  const MessageEntry := "Message"
  const InnerExceptionEntry := "InnerException"

  function StringValue(s: Option<string>): Value {
    if s.Some? then Text(s.value) else Null
  }

  function ObjectValue(o: Option<Object>): Value {
    if o.Some? then Boxed(o.value) else Null
  }

  /** The calls `Exception.GetObjectData` makes, in order. */
  function ExceptionFields(c: ExceptionCore): seq<Entry> {
    [(MessageEntry, StringValue(c.message)), (InnerExceptionEntry, ObjectValue(c.inner))]
  }

  /** `Exception.GetObjectData` on a non-null bag. */
  method ExceptionGetObjectData(c: ExceptionCore, info: SerializationInfo) returns (o: Outcome)
    modifies info
    ensures (info.entries, o) == AddAll(old(info.entries), ExceptionFields(c))
  {
    ghost var m := info.entries;
    var fields := ExceptionFields(c);
    AddAllAppend(m, [fields[0]], [fields[1]]);
    assert fields == [fields[0]] + [fields[1]];
    o := info.AddValue(MessageEntry, StringValue(c.message));
    if o.Fail? {
      return;
    }
    o := info.AddValue(InnerExceptionEntry, ObjectValue(c.inner));
  }

  /** The `Exception(SerializationInfo, StreamingContext)` constructor's reads,
      on a non-null bag. */
  function ExceptionRestore(h: Host, m: Entries): (r: Result<ExceptionCore>)
    ensures MessageEntry !in m || InnerExceptionEntry !in m ==> r.Err?
  {
    var message :- GetString(h, m, MessageEntry);
    var inner :- GetValue(m, InnerExceptionEntry);
    match inner
    case Null => Ok(ExceptionCore(message, None))
    case Boxed(o) => Ok(ExceptionCore(message, Some(o)))
    case Text(_) => Err(InvalidCast(InnerExceptionEntry))
  }

  /** Restoring from a bag that holds what `Exception.GetObjectData` wrote gives
      back the same message and inner exception. */
  lemma ExceptionRoundTrip(h: Host, c: ExceptionCore, m: Entries)
    requires Holds(m, ExceptionFields(c))
    ensures ExceptionRestore(h, m) == Ok(c)
  {
    var fields := ExceptionFields(c);
    assert fields[0].0 in m && m[fields[0].0] == fields[0].1;
    assert fields[1].0 in m && m[fields[1].0] == fields[1].1;
  }
}
