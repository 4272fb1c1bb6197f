/** `PropertyOutOfRangeException`: a `PropertyException` that also carries the
    offending value, adds a line showing it to `Message`, and falls back to a
    cached localized "out of range" text when no message is given. */
module PropertyOutOfRange {
  import opened Runtime
  import Property

  const RangeMessageKey := "Prop_PropertyOutOfRangeException"
  const ValueLineKey := "PropertyOutOfRange_ActualValue"
  const ActualValueEntry := "ActualValue"

  /** The exception's state: the parent's, and `m_actualValue`. */
  datatype PropertyOutOfRangeException =
    PropertyOutOfRangeException(parent: Property.PropertyException, actualValue: Value)

  /** The localized line that shows a non-null value. */
  function ValueLine(h: Host, v: Value): string
    requires !v.Null?
  {
    h.format(h.getString(ValueLineKey), ToText(h, v))
  }

  /** The `Message` getter: the parent's composed text, followed by a line
      showing the value when there is one; with a null parent text the value
      line stands alone. */
  function Message(h: Host, e: PropertyOutOfRangeException): (r: Option<string>)
    // a null value leaves the parent's text as it is
    ensures e.actualValue.Null? ==> r == Property.Message(h, e.parent)
    // a value always yields a text, and it ends with the value line
    ensures !e.actualValue.Null? ==> var l := ValueLine(h, e.actualValue);
      r.Some? && |l| <= |r.value| && r.value[|r.value| - |l|..] == l
    // the parent's text always begins the composed text
    ensures Property.Message(h, e.parent).Some? ==> r.Some? && Property.Message(h, e.parent).value <= r.value
  {
    var s := Property.Message(h, e.parent);
    if !e.actualValue.Null? then
      var valueMessage := ValueLine(h, e.actualValue);
      if s.None? then Some(valueMessage) else Some(s.value + h.newLine + valueMessage)
    else
      s
  }

  /** The `ActualValue` getter. */
  function ActualValue(e: PropertyOutOfRangeException): Value {
    e.actualValue
  }

  /** `ProperyName`, inherited. */
  function ProperyName(e: PropertyOutOfRangeException): Option<string> {
    Property.ProperyName(e.parent)
  }

  /** A value and a non-null parent text: the parent text, the new-line string
      and the value line, in that order, whatever the parent text is (an empty
      one still gets the separator). */
  lemma MessageAppendsValue(h: Host, e: PropertyOutOfRangeException)
    requires !e.actualValue.Null? && Property.Message(h, e.parent).Some?
    ensures Message(h, e) == Some(Property.Message(h, e.parent).value + h.newLine + ValueLine(h, e.actualValue))
  {
  }

  /** A value and a null parent text: the value line alone, with no separator. */
  lemma MessageValueAlone(h: Host, e: PropertyOutOfRangeException)
    requires !e.actualValue.Null? && Property.Message(h, e.parent).None?
    ensures Message(h, e) == Some(ValueLine(h, e.actualValue))
  {
  }

  /** The parent text is null only when both the base text is null and the
      name is null or empty. */
  lemma NullParentMessage(h: Host, e: PropertyOutOfRangeException)
    ensures Property.Message(h, e.parent).None? <==>
      e.parent.core.message.None? && Property.IsNullOrEmpty(e.parent.propertyName)
  {
  }

  /** The default text. */
  function RangeMessage(h: Host): string {
    h.getString(RangeMessageKey)
  }

  /** The static `_rangeMessage` cache behind the `RangeMessage` getter, for
      one host. */
  class RangeMessageCache {
    const host: Host
    var rangeMessage: Option<string>

    /** Whatever the cache holds is the looked-up text. */
    ghost predicate Valid()
      reads this
    {
      rangeMessage.Some? ==> rangeMessage.value == RangeMessage(host)
    }

    constructor (host: Host)
      ensures Valid() && this.host == host && rangeMessage == None
    {
      this.host := host;
      rangeMessage := None;
    }

    /** The `RangeMessage` getter: looks the text up on the first read and
        stores it; later reads return the stored text and change nothing. */
    method Get() returns (s: string)
      requires Valid()
      modifies this
      ensures Valid()
      ensures s == RangeMessage(host) && rangeMessage == Some(s)
      ensures old(rangeMessage).Some? ==> rangeMessage == old(rangeMessage)
    {
      if rangeMessage.None? {
        rangeMessage := Some(host.getString(RangeMessageKey));
      }
      s := rangeMessage.value;
    }
  }

  // The five public constructors, as functions of their arguments.

  /** `PropertyOutOfRangeException()`: the default text, no name, no value. */
  function Create(h: Host): (r: PropertyOutOfRangeException)
    ensures r.parent.core == ExceptionCore(Some(RangeMessage(h)), None)
    ensures ProperyName(r) == None && ActualValue(r) == Null
    ensures Message(h, r) == Some(RangeMessage(h))
  {
    PropertyOutOfRangeException(Property.CreateWithMessage(Some(RangeMessage(h))), Null)
  }

  /** `PropertyOutOfRangeException(propertyName)`: the default text and the name. */
  function CreateWithName(h: Host, propertyName: Option<string>): (r: PropertyOutOfRangeException)
    ensures r.parent.core == ExceptionCore(Some(RangeMessage(h)), None)
    ensures ProperyName(r) == propertyName && ActualValue(r) == Null
  {
    PropertyOutOfRangeException(Property.CreateWithMessageAndName(Some(RangeMessage(h)), propertyName), Null)
  }

  /** `PropertyOutOfRangeException(propertyName, message)`: hands the two to the
      parent as `(message, propertyName)`. */
  function CreateWithNameAndMessage(propertyName: Option<string>, message: Option<string>): (r: PropertyOutOfRangeException)
    ensures r.parent == Property.CreateWithMessageAndName(message, propertyName)
    ensures ProperyName(r) == propertyName && r.parent.core.message == message && ActualValue(r) == Null
  {
    PropertyOutOfRangeException(Property.CreateWithMessageAndName(message, propertyName), Null)
  }

  /** `PropertyOutOfRangeException(message, innerException)`: no name, no value. */
  function CreateWithMessageAndInner(message: Option<string>, inner: Option<Object>): (r: PropertyOutOfRangeException)
    ensures r.parent.core == ExceptionCore(message, inner)
    ensures ProperyName(r) == None && ActualValue(r) == Null
  {
    PropertyOutOfRangeException(Property.CreateWithMessageAndInner(message, inner), Null)
  }

  /** `PropertyOutOfRangeException(propertyName, actualValue, message)`: the only
      constructor that records a value. */
  function CreateWithNameValueAndMessage(propertyName: Option<string>, actualValue: Value, message: Option<string>): (r: PropertyOutOfRangeException)
    ensures r.parent == Property.CreateWithMessageAndName(message, propertyName)
    ensures ProperyName(r) == propertyName && r.parent.core.message == message && ActualValue(r) == actualValue
  {
    PropertyOutOfRangeException(Property.CreateWithMessageAndName(message, propertyName), actualValue)
  }

  /** The no-argument and the name-only constructors start from the same text;
      only the second has a name, and with a non-empty one its `Message` is
      that text, a line break and the name line. */
  lemma DefaultTextShared(h: Host, propertyName: string)
    requires propertyName != ""
    ensures Create(h).parent.core.message == CreateWithName(h, Some(propertyName)).parent.core.message
    ensures Message(h, CreateWithName(h, Some(propertyName)))
         == Some(RangeMessage(h) + h.newLine + Property.NameLine(h, propertyName))
  {
  }

  /** Message, name and value give three parts in order: the message, the name
      line and the value line, each after a line break. */
  lemma FullMessageLayout(h: Host, propertyName: string, actualValue: Value, message: string)
    requires propertyName != "" && !actualValue.Null?
    ensures Message(h, CreateWithNameValueAndMessage(Some(propertyName), actualValue, Some(message)))
         == Some(message + h.newLine + Property.NameLine(h, propertyName) + h.newLine + ValueLine(h, actualValue))
  {
  }

  /** The constructors that consult the cache. */
  method NewDefault(cache: RangeMessageCache) returns (e: PropertyOutOfRangeException)
    requires cache.Valid()
    modifies cache
    ensures cache.Valid() && cache.rangeMessage == Some(RangeMessage(cache.host))
    ensures e == Create(cache.host)
  {
    var text := cache.Get();
    e := PropertyOutOfRangeException(Property.CreateWithMessage(Some(text)), Null);
  }

  method NewWithName(cache: RangeMessageCache, propertyName: Option<string>) returns (e: PropertyOutOfRangeException)
    requires cache.Valid()
    modifies cache
    ensures cache.Valid() && cache.rangeMessage == Some(RangeMessage(cache.host))
    ensures e == CreateWithName(cache.host, propertyName)
  {
    var text := cache.Get();
    e := PropertyOutOfRangeException(Property.CreateWithMessageAndName(Some(text), propertyName), Null);
  }

  // Serialisation.

  /** The `AddValue` calls `GetObjectData` makes: the parent's, then the value. */
  function Fields(e: PropertyOutOfRangeException): (r: seq<Entry>)
    ensures |r| == 4 && r[..3] == Property.Fields(e.parent)
    ensures r[3] == (ActualValueEntry, e.actualValue)
  {
    Property.Fields(e.parent) + [(ActualValueEntry, e.actualValue)]
  }

  /** `GetObjectData`: a null bag throws before anything is written; otherwise
      the parent's fields are written, then the value under "ActualValue". */
  method GetObjectData(e: PropertyOutOfRangeException, info: SerializationInfo?) returns (o: Outcome)
    modifies info
    ensures info == null ==> o == Fail(ArgumentNull("info"))
    ensures info != null ==> (info.entries, o) == AddAll(old(info.entries), Fields(e))
  {
    if info == null {
      return Fail(ArgumentNull("info"));
    }
    ghost var m := info.entries;
    AddAllAppend(m, Property.Fields(e.parent), [(ActualValueEntry, e.actualValue)]);
    o := Property.GetObjectData(e.parent, info);
    if o.Fail? {
      return;
    }
    o := info.AddValue(ActualValueEntry, e.actualValue);
  }

  /** On a bag without those names, `GetObjectData` succeeds, stores the name
      and the value next to the base fields, and touches no other name. */
  lemma GetObjectDataWrites(e: PropertyOutOfRangeException, m: Entries)
    requires MessageEntry !in m && InnerExceptionEntry !in m
    requires Property.PropertyNameEntry !in m && ActualValueEntry !in m
    ensures var r := AddAll(m, Fields(e));
      r.1 == Pass
      && r.0.Keys == m.Keys + {MessageEntry, InnerExceptionEntry, Property.PropertyNameEntry, ActualValueEntry}
      && r.0[Property.PropertyNameEntry] == StringValue(e.parent.propertyName)
      && r.0[ActualValueEntry] == e.actualValue
      && forall k :: k in m ==> r.0[k] == m[k]
  {
    var f := Fields(e);
    assert f[0].0 == MessageEntry && f[1].0 == InnerExceptionEntry;
    assert f[2].0 == Property.PropertyNameEntry && f[3].0 == ActualValueEntry;
    assert Insertable(m, f);
    AddAllStores(m, f);
    assert Names(f) == {MessageEntry, InnerExceptionEntry, Property.PropertyNameEntry, ActualValueEntry} by {
      forall n | n in Names(f)
        ensures n in {MessageEntry, InnerExceptionEntry, Property.PropertyNameEntry, ActualValueEntry}
      {
        var i :| 0 <= i < |f| && f[i].0 == n;
      }
    }
    assert f[2].0 in AddAll(m, f).0 && f[3].0 in AddAll(m, f).0;
  }

  /** The deserialising constructor's reads, on a non-null bag. */
  function RestoreEntries(h: Host, m: Entries): (r: Result<PropertyOutOfRangeException>)
    ensures ActualValueEntry !in m || Property.PropertyNameEntry !in m ==> r.Err?
    ensures r.Ok? ==> r.value.actualValue == m[ActualValueEntry]
  {
    var parent :- Property.RestoreEntries(h, m);
    var value :- GetValue(m, ActualValueEntry);
    Ok(PropertyOutOfRangeException(parent, value))
  }

  /** The deserialising constructor `PropertyOutOfRangeException(info, context)`;
      a null bag throws. */
  function Restore(h: Host, info: SerializationInfo?): (r: Result<PropertyOutOfRangeException>)
    reads info
    ensures info == null ==> r == Err(ArgumentNull("info"))
  {
    if info == null then Err(ArgumentNull("info")) else RestoreEntries(h, info.entries)
  }

  /** Writing to a bag without those names and reading back gives the same
      exception, so the same name, the same value and the same `Message`. */
  lemma {:induction false} RoundTrip(h: Host, e: PropertyOutOfRangeException, m: Entries)
    requires MessageEntry !in m && InnerExceptionEntry !in m
    requires Property.PropertyNameEntry !in m && ActualValueEntry !in m
    ensures AddAll(m, Fields(e)).1 == Pass
    ensures RestoreEntries(h, AddAll(m, Fields(e)).0) == Ok(e)
    ensures Message(h, RestoreEntries(h, AddAll(m, Fields(e)).0).value) == Message(h, e)
  {
    var f := Fields(e);
    AddAllAppend(m, Property.Fields(e.parent), [(ActualValueEntry, e.actualValue)]);
    Property.RoundTrip(h, e.parent, m);
    var b := AddAll(m, Property.Fields(e.parent)).0;
    assert [(ActualValueEntry, e.actualValue)][1..] == [];
    var b' := b[ActualValueEntry := e.actualValue];
    assert AddAll(m, f).0 == b';
    assert Property.RestoreEntries(h, b') == Property.RestoreEntries(h, b) by {
      Property.FieldNames(e.parent);
      AddAllStores(m, Property.Fields(e.parent));
      assert MessageEntry in b && InnerExceptionEntry in b && Property.PropertyNameEntry in b;
      assert b'[MessageEntry] == b[MessageEntry];
      assert b'[InnerExceptionEntry] == b[InnerExceptionEntry];
      assert b'[Property.PropertyNameEntry] == b[Property.PropertyNameEntry];
    }
  }

  /** Serialising into a fresh bag and deserialising from it, through the
      class's own methods, reproduces the exception. */
  method SerializeAndRestore(h: Host, e: PropertyOutOfRangeException) returns (r: Result<PropertyOutOfRangeException>)
    ensures r == Ok(e)
  {
    var info := new SerializationInfo();
    var o := GetObjectData(e, info);
    RoundTrip(h, e, map[]);
    r := Restore(h, info);
  }
}
