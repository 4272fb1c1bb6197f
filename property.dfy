/** `PropertyException`: an error about one property, carrying the property's
    name next to the base error text, and composing its `Message` from both. */
module Property {
  import opened Runtime

  const DefaultMessageKey := "Prop_PropertyException"
  const NameLineKey := "Prop_PropertyName_Name"
  const PropertyNameEntry := "PropertyName"

  /** The exception's state: what `System.Exception` holds, and `m_propertyName`. */
  datatype PropertyException = PropertyException(core: ExceptionCore, propertyName: Option<string>)

  /** `String.IsNullOrEmpty`. */
  predicate IsNullOrEmpty(s: Option<string>) {
    s.None? || s.value == ""
  }

  /** The localized line that names the property. */
  function NameLine(h: Host, name: string): string {
    h.format(h.getString(NameLineKey), name)
  }

  /** The `Message` getter: the base text, followed by a line naming the
      property when there is a non-empty name. */
  function Message(h: Host, e: PropertyException): (r: Option<string>)
    // without a name the base text is returned untouched, null included
    ensures IsNullOrEmpty(e.propertyName) ==> r == e.core.message
    // with a name there is always a text
    ensures !IsNullOrEmpty(e.propertyName) ==> r.Some?
    // the base text always begins the composed text
    ensures e.core.message.Some? ==> r.Some? && e.core.message.value <= r.value
  {
    var s := e.core.message;
    if !IsNullOrEmpty(e.propertyName) then
      Some(OrEmpty(s) + h.newLine + NameLine(h, e.propertyName.value))
    else
      s
  }

  /** The `ProperyName` getter (the spelling is the source's). */
  function ProperyName(e: PropertyException): Option<string> {
    e.propertyName
  }

  /** A named property's `Message` is the base text, the new-line string and
      the name line, in that order, and can be cut back into those parts. */
  lemma MessageAnnotatesName(h: Host, e: PropertyException)
    requires !IsNullOrEmpty(e.propertyName)
    ensures Message(h, e) == Some(OrEmpty(e.core.message) + h.newLine + NameLine(h, e.propertyName.value))
    ensures var m, b := Message(h, e).value, OrEmpty(e.core.message);
      m[..|b|] == b && m[|b|..|b| + |h.newLine|] == h.newLine
      && m[|b| + |h.newLine|..] == NameLine(h, e.propertyName.value)
  {
  }

  // The five public constructors.

  /** `PropertyException()`: the localized generic text and no name. */
  function Create(h: Host): (r: PropertyException)
    ensures r.core == ExceptionCore(Some(h.getString(DefaultMessageKey)), None)
    ensures ProperyName(r) == None
    ensures Message(h, r) == Some(h.getString(DefaultMessageKey))
  {
    PropertyException(ExceptionCore(Some(h.getString(DefaultMessageKey)), None), None)
  }

  /** `PropertyException(message)`: no name, so `Message` is `message`. */
  function CreateWithMessage(message: Option<string>): (r: PropertyException)
    ensures r.core == ExceptionCore(message, None) && ProperyName(r) == None
  {
    PropertyException(ExceptionCore(message, None), None)
  }

  /** `PropertyException(message, innerException)`: no name either. */
  function CreateWithMessageAndInner(message: Option<string>, inner: Option<Object>): (r: PropertyException)
    ensures r.core == ExceptionCore(message, inner) && ProperyName(r) == None
  {
    PropertyException(ExceptionCore(message, inner), None)
  }

  /** `PropertyException(message, propertyName, innerException)`: the name is kept verbatim. */
  function CreateWithMessageNameAndInner(message: Option<string>, propertyName: Option<string>, inner: Option<Object>): (r: PropertyException)
    ensures r.core == ExceptionCore(message, inner) && ProperyName(r) == propertyName
  {
    PropertyException(ExceptionCore(message, inner), propertyName)
  }

  /** `PropertyException(message, propertyName)`: the name is kept verbatim. */
  function CreateWithMessageAndName(message: Option<string>, propertyName: Option<string>): (r: PropertyException)
    ensures r.core == ExceptionCore(message, None) && ProperyName(r) == propertyName
  {
    PropertyException(ExceptionCore(message, None), propertyName)
  }

  /** The constructors without a name leave `Message` equal to the message given. */
  lemma UnnamedMessage(h: Host, message: Option<string>, inner: Option<Object>)
    ensures Message(h, CreateWithMessage(message)) == message
    ensures Message(h, CreateWithMessageAndInner(message, inner)) == message
  {
  }

  /** A message and a non-empty name give the message, a line break and the
      name line. */
  lemma NamedMessageLayout(h: Host, message: string, name: string)
    requires name != ""
    ensures Message(h, CreateWithMessageAndName(Some(message), Some(name)))
         == Some(message + h.newLine + NameLine(h, name))
  {
  }

  // Serialisation.

  /** The `AddValue` calls `GetObjectData` makes: the base fields, then the name. */
  function Fields(e: PropertyException): (r: seq<Entry>)
    ensures |r| == 3 && r[..2] == ExceptionFields(e.core)
    ensures r[2] == (PropertyNameEntry, StringValue(e.propertyName))
  {
    ExceptionFields(e.core) + [(PropertyNameEntry, StringValue(e.propertyName))]
  }

  /** Exactly three names are written. */
  lemma FieldNames(e: PropertyException)
    ensures Names(Fields(e)) == {MessageEntry, InnerExceptionEntry, PropertyNameEntry}
  {
    var f := Fields(e);
    assert f[0].0 == MessageEntry && f[1].0 == InnerExceptionEntry && f[2].0 == PropertyNameEntry;
    forall n | n in Names(f) ensures n in {MessageEntry, InnerExceptionEntry, PropertyNameEntry} {
      var i :| 0 <= i < |f| && f[i].0 == n;
    }
  }

  /** `GetObjectData`: a null bag throws before anything is written; otherwise
      the base fields are written, then the name under "PropertyName". */
  method GetObjectData(e: PropertyException, info: SerializationInfo?) returns (o: Outcome)
    modifies info
    ensures info == null ==> o == Fail(ArgumentNull("info"))
    ensures info != null ==> (info.entries, o) == AddAll(old(info.entries), Fields(e))
  {
    if info == null {
      return Fail(ArgumentNull("info"));
    }
    ghost var m := info.entries;
    AddAllAppend(m, ExceptionFields(e.core), [(PropertyNameEntry, StringValue(e.propertyName))]);
    o := ExceptionGetObjectData(e.core, info);
    if o.Fail? {
      return;
    }
    o := info.AddValue(PropertyNameEntry, StringValue(e.propertyName));
  }

  /** On a bag without those names, `GetObjectData` succeeds, stores the name
      under "PropertyName" next to the base fields, and touches no other name. */
  lemma GetObjectDataWrites(e: PropertyException, m: Entries)
    requires MessageEntry !in m && InnerExceptionEntry !in m && PropertyNameEntry !in m
    ensures var r := AddAll(m, Fields(e));
      r.1 == Pass
      && r.0.Keys == m.Keys + {MessageEntry, InnerExceptionEntry, PropertyNameEntry}
      && r.0[PropertyNameEntry] == StringValue(e.propertyName)
      && forall k :: k in m ==> r.0[k] == m[k]
  {
    var f := Fields(e);
    assert f[0].0 == MessageEntry && f[1].0 == InnerExceptionEntry && f[2].0 == PropertyNameEntry;
    assert Insertable(m, f);
    AddAllStores(m, f);
    FieldNames(e);
    assert f[2] == (PropertyNameEntry, StringValue(e.propertyName));
  }

  /** The deserialising constructor's reads, on a non-null bag. */
  function RestoreEntries(h: Host, m: Entries): (r: Result<PropertyException>)
    ensures PropertyNameEntry !in m ==> r.Err?
    ensures r.Ok? && m[PropertyNameEntry].Text? ==> r.value.propertyName == Some(m[PropertyNameEntry].s)
    ensures r.Ok? && m[PropertyNameEntry].Null? ==> r.value.propertyName == None
  {
    var core :- ExceptionRestore(h, m);
    var name :- GetString(h, m, PropertyNameEntry);
    Ok(PropertyException(core, name))
  }

  /** The deserialising constructor `PropertyException(info, context)`; a null
      bag throws. */
  function Restore(h: Host, info: SerializationInfo?): (r: Result<PropertyException>)
    reads info
    ensures info == null ==> r == Err(ArgumentNull("info"))
  {
    if info == null then Err(ArgumentNull("info")) else RestoreEntries(h, info.entries)
  }

  /** Writing to a bag without those names and reading back gives the same
      exception, so the same name and the same `Message`. */
  lemma {:induction false} RoundTrip(h: Host, e: PropertyException, m: Entries)
    requires MessageEntry !in m && InnerExceptionEntry !in m && PropertyNameEntry !in m
    ensures AddAll(m, Fields(e)).1 == Pass
    ensures RestoreEntries(h, AddAll(m, Fields(e)).0) == Ok(e)
    ensures Message(h, RestoreEntries(h, AddAll(m, Fields(e)).0).value) == Message(h, e)
  {
    var f := Fields(e);
    assert f[0].0 == MessageEntry && f[1].0 == InnerExceptionEntry && f[2].0 == PropertyNameEntry;
    assert Insertable(m, f);
    AddAllStores(m, f);
    var b := AddAll(m, f).0;
    assert Holds(b, ExceptionFields(e.core)) by {
      forall i | 0 <= i < 2 ensures f[i] == ExceptionFields(e.core)[i] { }
    }
    ExceptionRoundTrip(h, e.core, b);
    assert b[PropertyNameEntry] == StringValue(e.propertyName) by { assert f[2].0 in b; }
  }

  /** Serialising into a fresh bag and deserialising from it, through the
      class's own methods, reproduces the exception. */
  method SerializeAndRestore(h: Host, e: PropertyException) returns (r: Result<PropertyException>)
    ensures r == Ok(e)
  {
    var info := new SerializationInfo();
    var o := GetObjectData(e, info);
    RoundTrip(h, e, map[]);
    r := Restore(h, info);
  }
}
