/** Managed render contents and the process-wide identity table that lets
    native code, which cannot hold managed references, reach them by serial
    number; the resolution of a native content handle; and the native-to-managed
    callbacks, each of which masks a faulting override behind a safe default. */
module RenderContents {
  import opened Wrappers
  import opened Uuids
  import opened ContentFields

  /** The part of a managed `RenderContent` the bridge keeps. */
  class RenderContent {
    /** `m_runtime_serial_number`: the issued serial of a custom content, 0 for
        a wrapper of native content, -1 once the native object has been deleted. */
    var serial: int
    /** `m_autoui_fields`, in the order they were added. */
    var fields: seq<Field>
    /** `IsNativeWrapper()`: false for a custom content, whose class cannot
        override the internal method; true for the wrappers of native content. */
    const isNativeWrapper: bool

    /** `RenderContent(bool isCustomContent)`: a custom content takes the
        counter's value as its serial, the counter moves on by one, and the
        table maps the new serial to the new content; a native wrapper keeps
        serial 0 and leaves the table alone. */
    constructor (table: ContentTable, isCustomContent: bool)
      requires table.Valid()
      modifies table
      ensures table.Valid()
      ensures fields == [] && isNativeWrapper == !isCustomContent
      ensures isCustomContent ==>
        && serial == old(table.currentSerial)
        && table.currentSerial == old(table.currentSerial) + 1
        && table.all == old(table.all)[serial := this]
        && table.retired == old(table.retired)
      ensures isCustomContent ==> serial >= 1 && serial !in old(table.all) && serial !in old(table.retired)
      ensures !isCustomContent ==> serial == 0 && unchanged(table)
    {
      fields := [];
      isNativeWrapper := !isCustomContent;
      if isCustomContent {
        serial := table.currentSerial;
      } else {
        serial := 0;
      }
      new;
      if isCustomContent {
        table.currentSerial := table.currentSerial + 1;
        table.all := table.all[serial := this];
      }
    }

    /** `AddUserInterfaceField`: appends a field holding the initial value
        (points in two and three dimensions are stored as vectors). */
    method AddUserInterfaceField(internalName: string, friendlyName: string, initialFieldValue: FieldValue)
      modifies this`fields
      ensures fields == old(fields) + [Field(internalName, friendlyName, Stored(initialFieldValue))]
      ensures AllStored(old(fields)) ==> AllStored(fields)
    {
      fields := fields + [Field(internalName, friendlyName, Stored(initialFieldValue))];
    }

    /** `FindField`: the first field whose internal name equals `name` under
        ordinal case-insensitive comparison; none when no field matches. */
    method FindField(name: string) returns (f: Option<Field>)
      ensures f == FoundField(fields, name)
      ensures f.Some? ==> f.value in fields && EqualsIgnoreCase(name, f.value.internalName)
      ensures f.None? ==> forall g | g in fields :: !EqualsIgnoreCase(name, g.internalName)
    {
      var i := 0;
      while i < |fields|
        invariant 0 <= i <= |fields|
        invariant forall j | 0 <= j < i :: !EqualsIgnoreCase(name, fields[j].internalName)
      {
        if EqualsIgnoreCase(name, fields[i].internalName) {
          return Some(fields[i]);
        }
        i := i + 1;
      }
      return None;
    }

    /** `TryGetUserInterfaceField` for the overload of type `t`: true with the
        field's value when the first field of that name has the matching field
        class, otherwise false with the overload's documented default (`now`
        stands for `DateTime.Now`). */
    method TryGetUserInterfaceField(internalName: string, t: ValueType, now: int) returns (found: bool, fieldValue: FieldValue)
      ensures (found, fieldValue) == TryGet(fields, internalName, t, now)
      ensures !found ==> fieldValue == DefaultFor(t, now)
      ensures FirstMatch(fields, internalName).None? ==> !found
    {
      fieldValue := DefaultFor(t, now);
      var f := FindField(internalName);
      found := f.Some? && ClassOf(f.value.value) == FieldClassFor(t);
      if found {
        fieldValue := Converted(t, f.value.value);
      }
    }

    /** `GetShader`: a native wrapper forwards to the native content's shader
        (`nativeGetShader`); any other content has none and answers zero. */
    function GetShader(renderEngineId: Uuid, privateData: int, nativeGetShader: (Uuid, int) -> int): (p: int)
      ensures !isNativeWrapper ==> p == 0
      ensures isNativeWrapper ==> p == nativeGetShader(renderEngineId, privateData)
    {
      if isNativeWrapper then nativeGetShader(renderEngineId, privateData) else 0
    }
  }

  /** The statics `m_current_serial_number` and `m_all_custom_content`. */
  class ContentTable {
    /** The serial the next custom content will take; starts at 1. */
    var currentSerial: int
    /** Serial number to live custom content. */
    var all: map<int, RenderContent>
    /** Serials whose native object has been deleted. */
    ghost var retired: set<int>

    /** Every key is an issued serial and is the serial of the custom content
        it maps to; a retired serial is issued and no longer in the table. */
    ghost predicate Valid()
      reads this, all.Values
    {
      && 1 <= currentSerial
      && (forall s | s in all :: 1 <= s < currentSerial && all[s].serial == s && !all[s].isNativeWrapper)
      && (forall s | s in retired :: 1 <= s < currentSerial && s !in all)
    }

    constructor ()
      ensures Valid()
      ensures currentSerial == 1 && all == map[] && retired == {}
    {
      currentSerial := 1;
      all := map[];
      retired := {};
    }

    /** `FromSerialNumber`: the live content with that serial, null otherwise.
        Serials below 1 are never issued and retired ones never come back. */
    function FromSerialNumber(serialNumber: int): (r: RenderContent?)
      requires Valid()
      reads this, all.Values
      ensures r == null <==> serialNumber !in all
      ensures r != null ==> r in all.Values && r.serial == serialNumber
      ensures serialNumber < 1 || serialNumber >= currentSerial || serialNumber in retired ==> r == null
    {
      if serialNumber in all then all[serialNumber] else null
    }

    /** Two live contents never share a serial: the table is injective. */
    lemma TableIsInjective(s: int, t: int)
      requires Valid() && s in all && t in all && s != t
      ensures all[s] != all[t]
    {
      assert all[s].serial == s && all[t].serial == t;
    }

    /** `OnDeleteRhCmnRenderContent`: for a live serial, marks that content
        deleted (serial -1) and drops only its key; the content's other state,
        its fields included, is left as it was. For any other serial, changes
        nothing. */
    method OnDeleteRhCmnRenderContent(serialNumber: int)
      requires Valid()
      modifies this, (if serialNumber in all then {all[serialNumber]} else {})`serial
      ensures Valid()
      ensures currentSerial == old(currentSerial)
      ensures old(serialNumber in all) ==>
        && old(all)[serialNumber].serial == -1
        && all == old(all) - {serialNumber}
        && retired == old(retired) + {serialNumber}
      ensures old(serialNumber !in all) ==> all == old(all) && retired == old(retired)
    {
      var content := FromSerialNumber(serialNumber);
      if content != null {
        content.serial := -1;
        all := all - {serialNumber};
        retired := retired + {serialNumber};
      }
    }

    /** `FromPointer`: null for a zero handle; a handle whose native object
        reports a positive managed serial is resolved through the table (and
        may be null); otherwise the texture, material and environment probes
        are tried in that order and the first non-zero one is wrapped. */
    function FromPointer(h: NativeHandle): (r: Resolved)
      requires Valid()
      reads this, all.Values
      ensures h.pointer == 0 ==> r == Null
      ensures h.pointer != 0 && h.rhCmnSerial > 0 ==>
        (r == Null <==> h.rhCmnSerial !in all) && (r != Null ==> r.Custom? && r.content.serial == h.rhCmnSerial)
      ensures h.pointer != 0 && h.rhCmnSerial > 0 && h.rhCmnSerial in all ==> r == Custom(all[h.rhCmnSerial])
      ensures h.pointer != 0 && h.rhCmnSerial <= 0 ==>
        && (r.NativeTexture? <==> h.asTexture != 0)
        && (r.NativeMaterial? <==> h.asTexture == 0 && h.asMaterial != 0)
        && (r.NativeEnvironment? <==> h.asTexture == 0 && h.asMaterial == 0 && h.asEnvironment != 0)
        && (r == Null <==> h.asTexture == 0 && h.asMaterial == 0 && h.asEnvironment == 0)
        && !r.Custom?
      ensures r.NativeTexture? ==> r.pointer == h.asTexture
      ensures r.NativeMaterial? ==> r.pointer == h.asMaterial
      ensures r.NativeEnvironment? ==> r.pointer == h.asEnvironment
    {
      if h.pointer == 0 then Null
      else if h.rhCmnSerial > 0 then
        var c := FromSerialNumber(h.rhCmnSerial);
        if c == null then Null else Custom(c)
      else if h.asTexture != 0 then NativeTexture(h.asTexture)
      else if h.asMaterial != 0 then NativeMaterial(h.asMaterial)
      else if h.asEnvironment != 0 then NativeEnvironment(h.asEnvironment)
      else Null
    }

    /** `OnIsContentTypeAcceptableAsChild`: the content's
        `IsContentTypeAcceptableAsChild` answer when the serial is live and a
        slot name was passed; false otherwise, and false (with the fault
        reported) when it throws. For a custom content that method is the
        native base-class call, here `isAcceptable`. */
    function OnIsContentTypeAcceptableAsChild(
      serialNumber: int, contentType: Uuid, childSlotName: Option<string>,
      isAcceptable: (int, Uuid, string) -> Attempt<bool>): (r: Guarded<bool>)
      requires Valid()
      reads this, all.Values
      ensures serialNumber !in all || childSlotName.None? ==> r == Guarded(false, false)
      ensures serialNumber in all && childSlotName.Some? ==>
        match isAcceptable(serialNumber, contentType, childSlotName.value)
        case Returned(v) => r == Guarded(v, false)
        case Threw => r == Guarded(false, true)
    {
      var content := FromSerialNumber(serialNumber);
      if content != null && childSlotName.Some? then
        match isAcceptable(serialNumber, contentType, childSlotName.value)
        case Returned(v) => Guarded(v, false)
        case Threw => Guarded(false, true)
      else Guarded(false, false)
    }

    /** `OnHarvestData`: the content's `HarvestData` result when the serial is
        live and the old content handle resolves; `HarvestedResult.None` (0)
        otherwise, and 0 with the fault reported when it throws. For a custom
        content that method is the native base-class call, here `harvestData`. */
    function OnHarvestData(
      serialNumber: int, oldContent: NativeHandle,
      harvestData: (int, Resolved) -> Attempt<int>): (r: Guarded<int>)
      requires Valid()
      reads this, all.Values
      ensures serialNumber !in all || FromPointer(oldContent) == Null ==> r == Guarded(HarvestedNone, false)
      ensures r.reported ==> r.result == HarvestedNone
      ensures serialNumber in all && FromPointer(oldContent) != Null ==>
        match harvestData(serialNumber, FromPointer(oldContent))
        case Returned(v) => r == Guarded(v, false)
        case Threw => r == Guarded(HarvestedNone, true)
    {
      var content := FromSerialNumber(serialNumber);
      var previous := FromPointer(oldContent);
      if content != null && previous != Null then
        match harvestData(serialNumber, previous)
        case Returned(v) => Guarded(v, false)
        case Threw => Guarded(HarvestedNone, true)
      else Guarded(HarvestedNone, false)
    }

    /** `_OnAddUISections`: runs the content's section override when the
        serial is live; `r.result` says whether it ran to completion. */
    function OnAddUISections(serialNumber: int, addSections: int -> Attempt<()>): (r: Guarded<bool>)
      requires Valid()
      reads this, all.Values
      ensures serialNumber !in all ==> r == Guarded(false, false)
      ensures serialNumber in all ==> r == Guarded(addSections(serialNumber).Returned?, addSections(serialNumber).Threw?)
    {
      var content := FromSerialNumber(serialNumber);
      if content != null then
        match addSections(serialNumber)
        case Returned(_) => Guarded(true, false)
        case Threw => Guarded(false, true)
      else Guarded(false, false)
    }

    /** `OnGetRenderContentString`: the type name (or description) the native
        string is set to, when the serial is live and the override gives a
        non-empty string; nothing is written otherwise. */
    function OnGetRenderContentString(
      serialNumber: int, isName: bool,
      typeName: int -> Attempt<Option<string>>, typeDescription: int -> Attempt<Option<string>>): (r: Guarded<Option<string>>)
      requires Valid()
      reads this, all.Values
      ensures r.result.Some? ==> serialNumber in all && r.result.value != "" && !r.reported
      ensures r.result.Some? ==> (if isName then typeName else typeDescription)(serialNumber) == Returned(r.result)
      ensures r.reported <==> serialNumber in all && (if isName then typeName else typeDescription)(serialNumber).Threw?
      ensures serialNumber in all && (if isName then typeName else typeDescription)(serialNumber) == Returned(Some("")) ==> r.result.None?
      ensures serialNumber !in all ==> r == Guarded(None, false)
      ensures serialNumber in all ==>
        match (if isName then typeName else typeDescription)(serialNumber)
        case Returned(str) => r == Guarded(if str.Some? && str.value != "" then str else None, false)
        case Threw => r == Guarded(None, true)
    {
      var content := FromSerialNumber(serialNumber);
      if content != null then
        match (if isName then typeName else typeDescription)(serialNumber)
        case Returned(str) =>
          if str.Some? && str.value != "" then Guarded(str, false) else Guarded(None, false)
        case Threw => Guarded(None, true)
      else Guarded(None, false)
    }

    /** `OnGetShader`: the content's `GetShader` when the serial is live,
        `IntPtr.Zero` otherwise. Every content in the table is custom, so no
        shader is ever supplied through this callback. */
    function OnGetShader(
      serialNumber: int, renderEngineId: Uuid, privateData: int,
      nativeGetShader: (Uuid, int) -> int): (r: Guarded<int>)
      requires Valid()
      reads this, all.Values
      ensures r == Guarded(0, false)
    {
      var content := FromSerialNumber(serialNumber);
      if content != null then Guarded(content.GetShader(renderEngineId, privateData, nativeGetShader), false)
      else Guarded(0, false)
    }

    /** A serial that was never issued, or whose native object has been
        deleted, never reaches an override: every callback answers its safe
        default and reports nothing. */
    lemma StaleSerialIsInert(
      serialNumber: int, contentType: Uuid, childSlotName: Option<string>,
      isAcceptable: (int, Uuid, string) -> Attempt<bool>,
      oldContent: NativeHandle, harvestData: (int, Resolved) -> Attempt<int>,
      addSections: int -> Attempt<()>,
      isName: bool, typeName: int -> Attempt<Option<string>>, typeDescription: int -> Attempt<Option<string>>,
      renderEngineId: Uuid, privateData: int, nativeGetShader: (Uuid, int) -> int)
      requires Valid()
      requires serialNumber < 1 || serialNumber >= currentSerial || serialNumber in retired
      ensures OnIsContentTypeAcceptableAsChild(serialNumber, contentType, childSlotName, isAcceptable) == Guarded(false, false)
      ensures OnHarvestData(serialNumber, oldContent, harvestData) == Guarded(HarvestedNone, false)
      ensures OnAddUISections(serialNumber, addSections) == Guarded(false, false)
      ensures OnGetRenderContentString(serialNumber, isName, typeName, typeDescription) == Guarded(None, false)
      ensures OnGetShader(serialNumber, renderEngineId, privateData, nativeGetShader) == Guarded(0, false)
    {
    }
  }

  /** A native content handle with the answers of the native probes made on it. */
  datatype NativeHandle = NativeHandle(
    pointer: int,          // the handle itself; 0 is `IntPtr.Zero`
    rhCmnSerial: int,      // `CRhCmnRenderContent_IsRhCmnDefined`
    asTexture: int,        // `Rdk_RenderContent_DynamicCastToTexture`
    asMaterial: int,       // `Rdk_RenderContent_DynamicCastToMaterial`
    asEnvironment: int)    // `Rdk_RenderContent_DynamicCastToEnvironment`

  /** What `FromPointer` returns: null, a custom content from the table, or a
      fresh wrapper of native content of one kind. */
  datatype Resolved =
    | Null
    | Custom(content: RenderContent)
    | NativeTexture(pointer: int)
    | NativeMaterial(pointer: int)
    | NativeEnvironment(pointer: int)

  /** The value a callback hands back to native code, and whether it reported
      a caught exception through `HostUtils.ExceptionReport`. */
  datatype Guarded<T> = Guarded(result: T, reported: bool)

  /** `HarvestedResult.None`. */
  const HarvestedNone: int := 0
}
