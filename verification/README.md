# RhinoCommon render-content and custom user-data bridge, in Dafny

This project models two pieces of the RhinoCommon glue between .NET and the native Rhino engine:

- **Render contents** (`dotnet/RDK/rdk_content.cs`):
  - the `RenderContentKind` flag codec (`KindString` / `KindFromString`);
  - `RegisterContent`, which picks a plug-in's instantiable content types, rejects or commits the whole batch, and notifies the native factories once per type and category;
  - the serial-number table that lets native code reach managed contents, and `FromSerialNumber`;
  - the fixed probe order of `FromPointer`;
  - deletion of a content from the table;
  - the automatic-UI field list, with its case-insensitive first-match `FindField` and the typed `TryGetUserInterfaceField` overloads and their documented defaults;
  - the native-to-managed callbacks, which turn a stale serial or a throwing override into a safe default.
- **Custom user data** (`c/on_userdata.cpp`):
  - the global class-id list, unique by UUID;
  - `ON_UserData_RegisterCustomUserData`;
  - `CRhCmnUserData` with its callback-gated `Archive` / `Read` / `Write`;
  - the lazy `ClassId()` cache and its fallback registration;
  - the copy and duplicate rules;
  - `CRhCmnUserData_Find`;
  - the global holder list behind `ON_UserDataHolder_MoveUserDataFrom` / `MoveUserDataTo`.

## How the model is organised

Modules, one per file:

| module | file | contents |
|---|---|---|
| `Wrappers`, `Uuids` | `wrappers.dfy` | `Option`, `Attempt` (an override either returns a value or throws), and `Uuid` as `bv128` |
| `RenderContentKinds` | `render_content_kinds.dfy` | kind flags as `bv32` and their text form |
| `ContentFields` | `content_fields.dfy` | field values, field classes, the overload defaults, and the first-match lookup as functions |
| `RenderContents` | `render_contents.dfy` | class `RenderContent` (serial, field list); class `ContentTable` (the statics `m_current_serial_number` and `m_all_custom_content`); `FromPointer`; the callbacks |
| `ContentRegistration` | `content_registration.dfy` | type descriptors in place of reflection; class `ContentTypeRegistry` (registered types and factory notices) with `RegisterContent` |
| `UserDataClassIds` | `userdata_class_ids.dfy` | class `ClassIdList` (`g_classIds`) |
| `RhCmnUserData` | `rhcmn_userdata.dfy` | class `CRhCmnUserData`, `CopyRhCmnUserData`, `OnObject`, `Find` |
| `UserDataHolders` | `userdata_holders.dfy` | class `HolderList` (`m_all_holders`) |

Static state and globals become one explicit object that the operations receive and modify.

The following become parameters:

- **Native probes:** a `NativeHandle` record holding the answers of `IsRhCmnDefined` and the three dynamic casts.
- **Overridable members and .NET callbacks:** function values. The `CRhCmnUserData` callback slots are a `Callbacks` record of optional functions, where a missing slot stands for NULL.
- **Outcomes of library calls whose bodies are not part of this model:** a boolean (`moveSucceeds`) or a record (`PlugInHost` for the plug-in lookups).

A callback's effect on the native side is modelled as the value it produces:

- **`Guarded(result, reported)`:** the value handed back, and whether a caught exception was reported.
- **`ClassIdAnswer`:** the result of `ClassId()`.
- **`moved`:** the holders whose data went onto the object.
- **`notices`:** the factory calls made.

## Model

| member | source | states |
|---|---|---|
| RenderContentKinds.KindFromString | dotnet/RDK/rdk_content.cs:109-119 | each of the three flags is set exactly when its name occurs in the text, and no other bit is ever set |
| RenderContentKinds.KindNames | dotnet/RDK/rdk_content.cs:121-148 | a name is listed exactly when its flag is set, and at most three are listed |
| RenderContentKinds.KindString | dotnet/RDK/rdk_content.cs:121-148 | the text is empty exactly when none of material, environment and texture is set, and starts with "material" whenever Material is set |
| RenderContentKinds.KindStringIsJoin | dotnet/RDK/rdk_content.cs:121-148 | the string builder's output is the names of the set flags in the order material, environment, texture, joined by ";" |
| RenderContentKinds.JoinHasNoOuterSeparator | dotnet/RDK/rdk_content.cs:131-144 | joining names that do not start or end with ";" gives "" only for no names, and otherwise a text that does not start or end with ";" |
| RenderContentKinds.KindStringHasNoOuterSeparator | dotnet/RDK/rdk_content.cs:121-148 | the text form never starts or ends with the separator |
| RenderContentKinds.MaterialNameOccurs | dotnet/RDK/rdk_content.cs:121-148 | "material" occurs in the text form exactly when the Material flag is set |
| RenderContentKinds.EnvironmentNameOccurs | dotnet/RDK/rdk_content.cs:121-148 | "environment" occurs in the text form exactly when the Environment flag is set, although the other names share letters with it |
| RenderContentKinds.TextureNameOccurs | dotnet/RDK/rdk_content.cs:121-148 | "texture" occurs in the text form exactly when the Texture flag is set |
| RenderContentKinds.NamedBitsDetermine | dotnet/RDK/rdk_content.cs:109-119 | a value using only the three flag bits is determined by which of them are set |
| RenderContentKinds.KindRoundTrip | dotnet/RDK/rdk_content.cs:109-148 | reading back the text form gives the original flags restricted to material, environment and texture; for every combination of the three it gives the original value |
| ContentFields.Stored | dotnet/RDK/rdk_content.cs:528-535 | a 2-D or 3-D point is stored as a vector of the same field class; a stored value is never a point of those kinds |
| ContentFields.DefaultFor | dotnet/RDK/rdk_content.cs:563-666 | each overload's fallback has that overload's type |
| ContentFields.FirstMatch | dotnet/RDK/rdk_content.cs:553-561 | the index found is the first whose internal name equals the name ignoring case; none exactly when no field matches |
| ContentFields.TryGet | dotnet/RDK/rdk_content.cs:563-666 | true exactly when the first matching field has the overload's field class; when false, the out value is the overload's default |
| ContentFields.TryGetHasRequestedType | dotnet/RDK/rdk_content.cs:563-666 | over fields added through `AddUserInterfaceField`, the out value always has the requested type, found or defaulted |
| ContentFields.FirstMatchAppend | dotnet/RDK/rdk_content.cs:500-561 | adding a field never changes which field an already-matched name finds; it is found by a name nothing matched before |
| ContentFields.AddThenTryGet | dotnet/RDK/rdk_content.cs:500-666 | after adding a value under a new name, the overload for its type returns true and that very value, points included |
| RenderContents.RenderContent.constructor | dotnet/RDK/rdk_content.cs:264-278 | a custom content takes the counter's value as its serial; the counter moves on by one and the table gains exactly that entry, under a serial never used or retired; a native wrapper has serial 0 and the table is unchanged |
| RenderContents.RenderContent.AddUserInterfaceField | dotnet/RDK/rdk_content.cs:500-551 | exactly one field is appended, holding the stored form of the initial value |
| RenderContents.RenderContent.FindField | dotnet/RDK/rdk_content.cs:553-561 | the loop returns the first field whose name matches ignoring case, or none when no field matches |
| RenderContents.RenderContent.TryGetUserInterfaceField | dotnet/RDK/rdk_content.cs:563-666 | returns `TryGet` of the field list; the default when not found; false when no field has that name |
| RenderContents.ContentTable.constructor | dotnet/RDK/rdk_content.cs:264-267 | the counter starts at 1 with an empty table |
| RenderContents.ContentTable.FromSerialNumber | dotnet/RDK/rdk_content.cs:1515-1520 | null exactly for serials not in the table; otherwise the content with that serial; never a content for a serial below 1, not yet issued or deleted |
| RenderContents.ContentTable.TableIsInjective | dotnet/RDK/rdk_content.cs:264-278 | two serials in the table never map to the same content |
| RenderContents.ContentTable.OnDeleteRhCmnRenderContent | dotnet/RDK/rdk_content.cs:985-1000 | a live serial's content gets serial -1 and only that key leaves the table, never to return; of the content only its serial may change, so its fields stay; any other serial changes nothing; the table invariant is kept |
| RenderContents.ContentTable.FromPointer | dotnet/RDK/rdk_content.cs:237-260 | a zero handle gives null; a positive managed serial is resolved only through the table, giving exactly the table's entry or null when it has none; otherwise texture, material and environment are tried in that order and the first non-zero probe is wrapped |
| RenderContents.ContentTable.OnIsContentTypeAcceptableAsChild | dotnet/RDK/rdk_content.cs:934-947 | the content's answer (for a custom content, the native base-class call) only for a live serial and a non-null slot name; false otherwise; false with the fault reported when it throws |
| RenderContents.ContentTable.OnHarvestData | dotnet/RDK/rdk_content.cs:951-965 | the content's `HarvestData` (for a custom content, the native base-class call) runs only when the serial is live and the old handle resolves; a reported fault always yields `HarvestedResult.None` |
| RenderContents.ContentTable.OnAddUISections | dotnet/RDK/rdk_content.cs:969-981 | the override runs only for a live serial; a throw is reported, not propagated |
| RenderContents.ContentTable.OnGetRenderContentString | dotnet/RDK/rdk_content.cs:1005-1021 | for a live serial, the chosen override's answer (name or description) is written exactly when it is neither null nor empty; nothing is written for any other serial; a fault is reported and writes nothing |
| RenderContents.RenderContent.GetShader | dotnet/RDK/rdk_content.cs:855-862 | zero for any content that is not a native wrapper; a native wrapper forwards to the native shader |
| RenderContents.ContentTable.OnGetShader | dotnet/RDK/rdk_content.cs:1025-1038 | always zero, with nothing reported: every content in the table is custom, hence not a native wrapper, so its `GetShader` gives zero |
| RenderContents.ContentTable.StaleSerialIsInert | dotnet/RDK/rdk_content.cs:932-1038 | for a serial never issued or already deleted, every callback returns its safe default without running or reporting anything |
| ContentRegistration.EligibleTypes | dotnet/RDK/rdk_content.cs:188-194 | exactly the exported types that are concrete, derive from `RenderContent` and have a parameterless constructor, never more than were exported |
| ContentRegistration.TypeNoticesCover | dotnet/RDK/rdk_content.cs:216-221 | a type gets a factory notice for a category exactly when it derives from that category's base class |
| ContentRegistration.NoticesCover | dotnet/RDK/rdk_content.cs:213-222 | the batch's notices name exactly the pairs of a batch type's id and one of its categories |
| ContentRegistration.NoticesCount | dotnet/RDK/rdk_content.cs:213-222 | the number of notices is the total number of categories over the batch: one per type and category |
| ContentRegistration.SecondRegistrationRejected | dotnet/RDK/rdk_content.cs:199-204 | once a batch is registered, registering the same exports again is rejected |
| ContentRegistration.SingleTextureScenario | dotnet/RDK/rdk_content.cs:180-226 | one concrete texture type is accepted, returned, and announced by exactly one texture-factory call |
| ContentRegistration.JustifiedGrows | dotnet/RDK/rdk_content.cs:210 | registering more types keeps every earlier notice backed by a registered type |
| ContentRegistration.JustifiedAfterBatch | dotnet/RDK/rdk_content.cs:210-222 | the notices of a registered batch are backed by registered types |
| ContentRegistration.ContentTypeRegistry.RegisterContent | dotnet/RDK/rdk_content.cs:180-226 | null, with nothing changed, exactly when the plug-in is unknown, no type is eligible, an eligible type is already registered, or there is no RDK plug-in; otherwise all eligible types in export order, all registered to the plug-in, with one factory notice per type and category appended in batch order |
| ContentRegistration.ContentTypeRegistry.CollectEligible | dotnet/RDK/rdk_content.cs:188-194 | the filter loop produces `EligibleTypes` of the exports |
| ContentRegistration.ContentTypeRegistry.AnyRegistered | dotnet/RDK/rdk_content.cs:199-204 | true exactly when some type of the batch is already registered |
| ContentRegistration.ContentTypeRegistry.AddRegisteredContentTypes | dotnet/RDK/rdk_content.cs:210 | every type of the batch is registered to the plug-in; earlier registrations stay |
| ContentRegistration.ContentTypeRegistry.NotifyTypeFactories | dotnet/RDK/rdk_content.cs:216-221 | appends the notices of one type: texture, material, environment, each only if it derives from it |
| ContentRegistration.ContentTypeRegistry.NotifyFactories | dotnet/RDK/rdk_content.cs:213-222 | appends `Notices` of the batch, keeping every notice backed by a registered type |
| UserDataClassIds.IndexOfUuid | c/on_userdata.cpp:147-157 | the index found is the first entry with that UUID; none exactly when no entry has it |
| UserDataClassIds.AppendKeepsUnique | c/on_userdata.cpp:259-266 | appending an entry for an absent UUID keeps the UUIDs unique |
| UserDataClassIds.LookupAppend | c/on_userdata.cpp:147-157 | appending never changes what an already-listed UUID finds |
| UserDataClassIds.AppendThenLookup | c/on_userdata.cpp:253-267 | after registering a new UUID, looking it up finds the new entry |
| UserDataClassIds.ClassIdList.GetClassId | c/on_userdata.cpp:147-157 | the first entry whose UUID equals the id, NULL exactly when no entry has it |
| UserDataClassIds.ClassIdList.RegisterCustomUserData | c/on_userdata.cpp:253-267 | nothing changes for an empty name or a listed UUID; otherwise exactly one entry (that UUID, that name, base "ON_UserData") is appended; UUIDs stay unique |
| RhCmnUserData.CRhCmnUserData.constructor | c/on_userdata.cpp:51-61 | the serial, ids and description are as given, the class-id cache is empty and the copy count is 1 |
| RhCmnUserData.CRhCmnUserData.Archive | c/on_userdata.cpp:87-94 | false unless both the archive and read-write callbacks are set; then true exactly when the archive callback answers more than 0 |
| RhCmnUserData.CRhCmnUserData.Write | c/on_userdata.cpp:96-102 | 0 without a read-write callback; otherwise that callback's answer for this serial with writing = 1 |
| RhCmnUserData.CRhCmnUserData.Read | c/on_userdata.cpp:104-110 | 0 without a read-write callback; otherwise that callback's answer for this serial with writing = 0 |
| RhCmnUserData.ArchivedDataReachesCallback | c/on_userdata.cpp:87-110 | whenever `Archive` says yes, both `Write` and `Read` reach the .NET callback with this serial |
| RhCmnUserData.CRhCmnUserData.ClassId | c/on_userdata.cpp:201-233 | a cached entry is returned unchanged; else the first listed entry for the managed type is cached; else a fallback "CRhCmnUserData" entry is appended and cached unless the type id is nil, when the base class id is answered; the list stays unique, only grows at its end, and the cache always names a listed entry of this type |
| RhCmnUserData.CRhCmnUserData.DuplicateObject | c/on_userdata.cpp:235-251 | NULL without a duplicate callback or when it answers a serial below 1; otherwise a new object with the same type id, plug-in id and description, the answered serial, and an empty cache |
| RhCmnUserData.CopyRhCmnUserData | c/on_userdata.cpp:172-190 | accepted exactly when both objects are `CRhCmnUserData` with equal plug-in and managed type ids; the destination serial is replaced by the duplicate callback's answer only when it was below 1 and the callback is set, and is otherwise left alone |
| RhCmnUserData.GetUserData | c/on_userdata.cpp:287 | the first attached user data with that UUID, none exactly when there is none |
| RhCmnUserData.Find | c/on_userdata.cpp:282-293 | -1 for a null object or no user data of that type; otherwise the serial of the first such user data when it is a `CRhCmnUserData`, and -1 when it is not |
| UserDataHolders.WithoutMembers | c/on_userdata.cpp:359 | the remaining pieces are exactly those with another id |
| UserDataHolders.HoldersWithMembers | c/on_userdata.cpp:358-363 | the holders handed over are exactly those of the pieces with that id |
| UserDataHolders.SweepPast | c/on_userdata.cpp:354-365 | once no later piece has the id, the rest of the loop changes nothing and hands over nothing |
| UserDataHolders.SweepUnique | c/on_userdata.cpp:354-365 | with unique ids, the loop as written (index advanced after `Remove(i)`) removes exactly the pieces with that id and keeps the rest in order |
| UserDataHolders.SweptUnique | c/on_userdata.cpp:354-365 | with unique ids, the loop as written hands over exactly the holders of the pieces with that id |
| UserDataHolders.SweepSkipsAdjacentDuplicate | c/on_userdata.cpp:354-365 | without unique ids the loop is wrong: for two adjacent pieces with the id it removes one and hands over one holder instead of two |
| UserDataHolders.HoldersWithUnique | c/on_userdata.cpp:354-365 | with unique ids at most one holder is handed over |
| UserDataHolders.WithoutKeepsUniqueIds | c/on_userdata.cpp:359 | removing pieces keeps the ids unique |
| UserDataHolders.WithoutKeepsDistinctHolders | c/on_userdata.cpp:359 | removing pieces keeps the holders distinct |
| UserDataHolders.HolderSetWithout | c/on_userdata.cpp:358-363 | with distinct holders, the holders still listed after the removal are the earlier ones minus those handed over |
| UserDataHolders.RemovalWithoutDeleteLeaks | c/on_userdata.cpp:358-363 | removing a piece without deleting its holder leaves a live holder that nothing lists |
| UserDataHolders.HolderList.MoveUserDataFrom | c/on_userdata.cpp:321-348 | false, with nothing changed, for a nil id, a null object, an object without user data, an id already held, or a failed move; otherwise exactly one piece with that id and a new holder is appended; unique ids and ownership of the live holders are kept |
| UserDataHolders.HolderList.MoveUserDataTo | c/on_userdata.cpp:350-367 | nothing for a nil id or null object; otherwise the loop as written, which given unique ids removes just the piece with that id, keeps the others in order and hands at most its one holder to the object |
| UserDataHolders.HolderList.MoveUserDataToReleasing | c/on_userdata.cpp:350-367 | as `MoveUserDataTo`, and the handed-over holder is deleted, so the live holders stay exactly the listed ones |
| UserDataHolders.HolderList.SweepHolders | c/on_userdata.cpp:354-365 | the loop's result equals `Sweep` and `Swept` of the old list, hence the list without the id and at most one holder |

## Left out

- Integer width: the serial counter `m_current_serial_number` is unbounded here. The 32-bit wrap-around after 2^31 - 1 custom contents is not modelled.
- ContentFields.FieldValue: the .NET `double` values, and the components of `Color4f`, vectors, points and transforms, are mathematical reals. Floating-point rounding, NaN and infinities are not modelled. Field values are only stored and handed back, so no arithmetic depends on this.
- ContentFields.EqualsIgnoreCase: ordinal case-insensitive comparison is modelled with ASCII upper-casing only. Non-ASCII case pairs that .NET folds are treated as different.
- RegisterContent:
  - The branch where `GetExportedTypes` returns null is not modelled; a type list is always present.
  - The returned `Type[]` is the list of eligible descriptors.
  - `RdkPlugIn` internals (`RenderContentTypeIsRegistered`, `AddRegisteredContentTypes`, `GetRdkPlugIn`) are a map and a set of plug-ins.
- ContentRegistration.ContentTypeRegistry: the three loops of `RegisterContent` are separate methods (`CollectEligible`, `AnyRegistered`, `NotifyFactories`), each verified on its own.
- RenderContents.RenderContent: `IsNativeWrapper()` is a constant, false for a custom content and true for a content built as a wrapper. The native wrapper classes that override it are not part of this model.
- FromPointer: the `NativeRenderTexture` / `NativeRenderMaterial` / `NativeRenderEnvironment` wrappers are tagged values carrying the native pointer, not new objects.
  - `Debug.Assert(false)` on the final branch is not modelled; null is returned.
- Callbacks: the members the callbacks reach are function parameters.
  - `OnAddUserInterfaceSections` (virtual) and `TypeName`/`TypeDescription` (abstract) belong to plug-ins. Any function stands for them.
  - `IsContentTypeAcceptableAsChild` and `HarvestData` are private, non-virtual forwards. For a custom content they call the native base class (`Rdk_RenderContent_CallIsContentTypeAcceptableAsChildBase`, `Rdk_RenderContent_CallHarvestDataBase`), whose answers belong to the engine. The model allows any answer, including a throw, so it promises less about them than the engine may.
  - `GetShader` is modelled as written: zero for every content that is not a native wrapper, so `OnGetShader` always answers zero.
  - `ExceptionReport` is a `reported` flag.
  - The marshalling of the slot name and the `ON_wString_Set` write are values.
  - An exception thrown inside `FromSerialNumber` itself cannot happen in the model.
- OnDeleteRhCmnRenderContent: the try/catch has no effect in the model, since nothing in the body throws.
- Not modelled from rdk_content.cs:
  - the event add/remove accessors and their native wiring;
  - the property accessors and string marshalling;
  - `Construct`;
  - `SetNamedParameter` / `GetNamedParameter`;
  - `Dispose` and the finalizer;
  - `FromInstanceId` and the search hint.
  These are forwards to native calls with no logic of their own.
- Not modelled from on_userdata.cpp:
  - the transform callback and `Transform`;
  - `GetDescription`;
  - the UUID-to-string conversion of class ids;
  - `CRhCmnUserData_New` / `_Delete`;
  - `CRhCmnUserData_SetCallbacks`, whose effect is the `Callbacks` parameter;
  - `RhCmnClassIdCreateOnObject` and the create callback;
  - the destructor's delete notification (including the one for the temporary discarded by `DuplicateObject`);
  - the class-id list's destructor.
- RhCmnUserData.Callbacks: the `ON_BinaryArchive` passed to the read-write callback and the destination pointer passed to the duplicate callback are not arguments. What .NET does with them is outside this model.
- RhCmnUserData.GetUserData: `ON_Object::GetUserData` belongs to the geometry library. It is taken to be a front-to-back search of the attached user data by UUID.
- UserDataHolders: the user data inside an `ON_UserDataHolder`, and what `ON_UserDataHolder::MoveUserDataFrom/To` do with the object's user data, are not modelled. The success of the move in is the `moveSucceeds` parameter, and the move out is the returned `moved` list.
- The WinForms dialog `dotnet/UI/ListBox.cs` and the link pragmas in `c/plugin_linking_pragmas.h` are not part of this model.

## Findings

| source | as written | input that shows it | evidently intended | confidence | as-written member | corrected member |
|---|---|---|---|---|---|---|
| c/on_userdata.cpp:358-363 | the holder removed from `m_all_holders` is handed its object's data and then dropped without `delete`, although the failure path of `MoveUserDataFrom` (line 338) deletes a holder it no longer needs | `MoveUserDataFrom(id, obj)` succeeding, then `MoveUserDataTo(id, obj, false)`: the holder allocated at line 334 is no longer listed anywhere and is never freed | delete the holder after `pHolder->MoveUserDataTo(...)`, so the allocated holders stay exactly the listed ones | medium, not executed | UserDataHolders.RemovalWithoutDeleteLeaks | UserDataHolders.HolderList.MoveUserDataToReleasing |
