# Property exceptions of OpenNetERP.Exceptions, modelled in Dafny

The model covers the two exception classes of `OpenNetERP.Exceptions`:

- `PropertyException`. It reports that a property's value broke the property's contract. It carries an optional property name next to the base error text. Its `Message` appends a localized line naming the property when the name is neither null nor empty. It serialises the name under `"PropertyName"`.
- `PropertyOutOfRangeException`. It derives from `PropertyException` and adds an optional `ActualValue`. Its `Message` appends a localized line showing the value to the parent's composed text. When that text is null, the value line stands alone. It serialises the value under `"ActualValue"`. Its default text comes from a static cache that is filled on first read.

Files:

- `runtime.dfy`, module `Runtime`. This is the part of .NET the classes lean on:
  - `Option`, `Result` and `Outcome`, where an error is the exception thrown.
  - `Value`, a reference of type `object`: null, a string, or an opaque `Object`.
  - `Host`, the injected resource lookup, `string.Format`, `Environment.NewLine` and `Object.ToString`.
  - The `SerializationInfo` class, holding a `map<string, Value>` that `AddValue` updates in place.
  - The reads `GetString` and `GetValue`.
  - The message and inner-exception fields of `System.Exception`, with how they are written and read back.
  - `AddAll`, the effect of a list of `AddValue` calls made in order. It is the specification of every `GetObjectData`.
- `property.dfy`, module `Property`: `PropertyException.cs`.
- `property_out_of_range.dfy`, module `PropertyOutOfRange`: `PropertyOutOfRangeException.cs`.

Each exception is an immutable record: the base message, the inner exception, the property name and, for the range variant, the actual value. Nothing changes after construction. `Message` and the getters are functions. Each constructor is a function of its arguments. The two range constructors that read the static cache are also methods on the `RangeMessageCache` class. `GetObjectData` is a method that mutates the caller's bag. A null bag is a nullable `SerializationInfo?` that gives `ArgumentNull("info")`. Each deserialising constructor is a function that reads the bag.

The resource manager, `string.Format`, `Environment.NewLine` and `ToString` are parameters inside `Host`, not fixed functions. So every property below holds for every resource table, formatter and newline string. Null references are `Option.None` or `Value.Null`. The base message stays an `Option`, exactly as stored, so the code's null branches stay reachable. C#'s `null + s` reads null as the empty string (`OrEmpty`).

## Model

| member | source | states |
|---|---|---|
| Runtime.OrEmpty | PropertyException.cs:41 | C# string `+` reads a null left operand as the empty string and a non-null one as itself |
| Runtime.ToText | PropertyOutOfRangeException.cs:48 | `ToString` on a non-null value; a string gives itself back |
| Runtime.AddAll | PropertyException.cs:73-74 | a list of `AddValue` calls never changes or removes a present entry; it adds only the listed names; it succeeds exactly when each name is new and no two names are alike |
| Runtime.AddAllStores | PropertyException.cs:73-74 | when the calls succeed, every listed name holds its value and the bag gains exactly those names; when they fail, a listed name was a duplicate |
| Runtime.AddAllAppend | PropertyOutOfRangeException.cs:84-85 | the parent's writes followed by this class's own writes equal one list of writes, which stops at the first failure |
| Runtime.SerializationInfo.AddValue | PropertyException.cs:74 | stores a value under a new name; a name already present throws and leaves the bag unchanged |
| Runtime.GetString | PropertyException.cs:134 | a missing name throws; null reads as null; a string reads as itself |
| Runtime.GetValue | PropertyOutOfRangeException.cs:144 | a missing name throws; otherwise the stored reference, null included |
| Runtime.ExceptionGetObjectData | PropertyException.cs:73 | the base serialisation step writes the message, then the inner exception, as an `AddAll` of those two entries |
| Runtime.ExceptionRestore | PropertyException.cs:132 | the base deserialising step fails when the message or inner-exception entry is missing |
| Runtime.ExceptionRoundTrip | PropertyException.cs:132 | a bag that holds the base entries is read back as the same message and inner exception |
| Property.Message | PropertyException.cs:33-46 | with a null or empty name, `Message` is the base text, unchanged and possibly null; with a name there is always a text; the base text is always a prefix |
| Property.MessageAnnotatesName | PropertyException.cs:38-41 | with a non-empty name, `Message` is base + NewLine + Format(Lookup("Prop_PropertyName_Name"), name); the three parts can be cut back out at their lengths |
| Property.Create | PropertyException.cs:84 | the no-argument constructor takes Lookup("Prop_PropertyException") as its text, has no name or inner exception, and `Message` is that text |
| Property.CreateWithMessage | PropertyException.cs:92 | stores the message; `ProperyName` is null |
| Property.CreateWithMessageAndInner | PropertyException.cs:101 | stores the message and inner exception; `ProperyName` is null |
| Property.CreateWithMessageNameAndInner | PropertyException.cs:111-114 | stores the message and inner exception; `ProperyName` is the name given, verbatim |
| Property.CreateWithMessageAndName | PropertyException.cs:121-124 | stores the message; `ProperyName` is the name given, verbatim |
| Property.UnnamedMessage | PropertyException.cs:92-103 | with either constructor that takes no name, `Message` is exactly the message given |
| Property.NamedMessageLayout | PropertyException.cs:121-124 | with a message and a non-empty name, `Message` is message + NewLine + the name line |
| Property.Fields | PropertyException.cs:73-74 | `GetObjectData` makes the base entries' calls, then one call for "PropertyName" with the stored name |
| Property.FieldNames | PropertyException.cs:73-74 | the names written are exactly "Message", "InnerException" and "PropertyName" |
| Property.GetObjectData | PropertyException.cs:66-75 | a null bag throws ArgumentNull("info") before any write; otherwise the bag becomes the `AddAll` of the base entries and then "PropertyName" |
| Property.GetObjectDataWrites | PropertyException.cs:73-74 | on a bag without these names, serialising succeeds, adds exactly these names, stores the name under "PropertyName" and leaves every earlier entry as it was |
| Property.RestoreEntries | PropertyException.cs:132-135 | a missing "PropertyName" throws; otherwise the name read back is the stored string, or null |
| Property.Restore | PropertyException.cs:132-135 | the deserialising constructor throws ArgumentNull("info") on a null bag |
| Property.RoundTrip | PropertyException.cs:74 | serialising into a bag without these names and deserialising gives the same exception, so the same `ProperyName` and `Message` |
| Property.SerializeAndRestore | PropertyException.cs:66-135 | `GetObjectData` into a fresh `SerializationInfo`, then the deserialising constructor, gives back the exception |
| PropertyOutOfRange.Message | PropertyOutOfRangeException.cs:41-55 | with a null value, `Message` is the parent's composed message; with a value there is always a text that ends with the value line; the parent's text, when non-null, is a prefix |
| PropertyOutOfRange.MessageAppendsValue | PropertyOutOfRangeException.cs:48-51 | a value with a non-null parent text gives parent + NewLine + Format(Lookup("PropertyOutOfRange_ActualValue"), ToStr(value)), even when the parent text is empty |
| PropertyOutOfRange.MessageValueAlone | PropertyOutOfRangeException.cs:49-50 | a value with a null parent text gives the value line alone, with no separator |
| PropertyOutOfRange.NullParentMessage | PropertyOutOfRangeException.cs:45-49 | the parent text is null exactly when the base text is null and the name is null or empty |
| PropertyOutOfRange.RangeMessageCache.constructor | PropertyOutOfRangeException.cs:22 | the cache starts empty |
| PropertyOutOfRange.RangeMessageCache.Get | PropertyOutOfRangeException.cs:57-65 | returns Lookup("Prop_PropertyOutOfRangeException") and leaves it cached; once the cache is set, a read changes nothing |
| PropertyOutOfRange.Create | PropertyOutOfRangeException.cs:95-97 | the no-argument constructor takes the default text, has no name and no value, and `Message` is that text |
| PropertyOutOfRange.CreateWithName | PropertyOutOfRangeException.cs:103-105 | takes the default text, stores the name and has no value |
| PropertyOutOfRange.CreateWithNameAndMessage | PropertyOutOfRangeException.cs:112 | passes its arguments to the parent swapped, as (message, propertyName); no value |
| PropertyOutOfRange.CreateWithMessageAndInner | PropertyOutOfRangeException.cs:121 | stores the message and inner exception, with no name and no value |
| PropertyOutOfRange.CreateWithNameValueAndMessage | PropertyOutOfRangeException.cs:133-136 | the parent gets (message, propertyName); the value is stored; it is the only constructor that sets one |
| PropertyOutOfRange.DefaultTextShared | PropertyOutOfRangeException.cs:95-105 | the no-argument and name-only constructors share the same base text; with a non-empty name, `Message` is that text + NewLine + the name line |
| PropertyOutOfRange.FullMessageLayout | PropertyOutOfRangeException.cs:133-136 | with name, value and message: message + NewLine + name line + NewLine + value line |
| PropertyOutOfRange.NewDefault | PropertyOutOfRangeException.cs:95 | the no-argument constructor reads the cache, leaves it filled, and gives `Create` |
| PropertyOutOfRange.NewWithName | PropertyOutOfRangeException.cs:103 | the name-only constructor reads the cache, leaves it filled, and gives `CreateWithName` |
| PropertyOutOfRange.Fields | PropertyOutOfRangeException.cs:84-85 | `GetObjectData` makes the parent's calls, then one call for "ActualValue" with the stored value |
| PropertyOutOfRange.GetObjectData | PropertyOutOfRangeException.cs:77-86 | a null bag throws ArgumentNull("info") before any write; otherwise the bag becomes the `AddAll` of the parent's entries and then "ActualValue" |
| PropertyOutOfRange.GetObjectDataWrites | PropertyOutOfRangeException.cs:84-85 | on a bag without these names, serialising succeeds, adds exactly the four names (including "PropertyName" and "ActualValue") with their values, and leaves every earlier entry as it was |
| PropertyOutOfRange.RestoreEntries | PropertyOutOfRangeException.cs:143-145 | a missing "ActualValue" or "PropertyName" throws; otherwise the value read back is the stored reference |
| PropertyOutOfRange.Restore | PropertyOutOfRangeException.cs:143-145 | the deserialising constructor throws ArgumentNull("info") on a null bag |
| PropertyOutOfRange.RoundTrip | PropertyOutOfRangeException.cs:85 | serialising into a bag without these names and deserialising gives the same exception, so the same `ActualValue`, `ProperyName` and `Message` |
| PropertyOutOfRange.SerializeAndRestore | PropertyOutOfRangeException.cs:77-145 | `GetObjectData` into a fresh `SerializationInfo`, then the deserialising constructor, gives back the exception |

The getters `ProperyName` (PropertyException.cs:51-54) and `ActualValue` (PropertyOutOfRangeException.cs:33-36) are the functions `Property.ProperyName`, `PropertyOutOfRange.ProperyName` and `PropertyOutOfRange.ActualValue`. They return the stored field. The constructor contracts above state what they return.

## Left out

- The resource manager's contents, `string.Format`, `Environment.NewLine` and `Object.ToString` are foreign code. They are fields of `Host`, and each stays an arbitrary function. A resource that is missing (null from `GetString`) and a format string that rejects its argument are not modelled.
- The resource manager follows the current UI culture. The model fixes one `Host` for each cache, so it does not show that the static `_rangeMessage` keeps the first culture's text.
- `Exception.Message` returns a default text when the stored message is null. This is left out: the base message is kept as stored, so the null branch at PropertyOutOfRangeException.cs:49 can be reached.
- `Exception.GetObjectData` and the base deserialising constructor are reduced to the "Message" and "InnerException" entries. Class name, stack traces, help link, HResult, source and data are not modelled. Inner exceptions are opaque objects, not chained exceptions.
- `StreamingContext` is not modelled: neither class reads it.
- `GetString` on an entry that is neither a string nor null goes through the formatter converter. The model uses the host's `ToString` for this.
- `volatile` and thread races on `_rangeMessage` are not modelled. The cache is a sequential memo on one `RangeMessageCache` object.
- The attributes (`ComVisible`, `Serializable`, `SecurityCritical`, `SecuritySafeCritical`) and `Contract.EndContractBlock` are not modelled: they have no behaviour to check.
- Property.RoundTrip and PropertyOutOfRange.RoundTrip require a bag without the names being written. A bag that already holds one of them throws a duplicate-name error: `AddAll` and `AddAllStores` state this, the round trip does not.
