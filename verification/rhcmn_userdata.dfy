/** `CRhCmnUserData`: native user data whose behaviour is delegated to .NET
    through process-wide callbacks, identified on the .NET side by a serial
    number. */
module RhCmnUserData {
  import opened Wrappers
  import opened Uuids
  import opened UserDataClassIds

  /** The static callback slots set by `CRhCmnUserData_SetCallbacks`; `None`
      is a NULL slot. The archive stream and the native destination pointer
      are not arguments here: what .NET does with them is not modelled. */
  datatype Callbacks = Callbacks(
    archive: Option<int -> int>,           // m_archive(serial)
    readWrite: Option<(int, int) -> int>,  // m_readwrite(serial, writing)
    duplicate: Option<int -> int>)         // m_duplicate(source serial) -> new serial

  /** What `ClassId()` answers: a registered `CRhCmnClassId`, or the class id
      of the `ON_UserData` base class. */
  datatype ClassIdAnswer = Registered(classId: ClassId) | BaseUserData

  /** The class name and base class name of the fallback entry `ClassId()`
      appends for an unregistered managed type. */
  const FallbackClassName := "CRhCmnUserData"
  const UserDataBaseName := "ON_UserData"

  class CRhCmnUserData {
    /** `m_serial_number`: the .NET object this data stands for. */
    var serialNumber: int
    /** `m_userdata_uuid`, the managed type id. */
    const managedTypeId: Uuid
    /** `m_application_uuid`, the plug-in id. */
    const pluginId: Uuid
    const description: string
    /** `m_userdata_copycount`. */
    const copyCount: int
    /** `m_pClassId`, filled lazily by `ClassId()`. */
    var classIdCache: Option<ClassId>

    constructor (serial: int, managedTypeId: Uuid, pluginId: Uuid, description: string)
      ensures serialNumber == serial && this.managedTypeId == managedTypeId
      ensures this.pluginId == pluginId && this.description == description
      ensures classIdCache.None? && copyCount == 1
    {
      serialNumber := serial;
      this.managedTypeId := managedTypeId;
      this.pluginId := pluginId;
      this.description := description;
      copyCount := 1;
      classIdCache := None;
    }

    /** `Archive()`: FALSE unless both the archive and the read-write
        callbacks are set; then TRUE exactly when .NET answers > 0. */
    function Archive(cb: Callbacks): (r: bool)
      reads this
      ensures cb.archive.None? || cb.readWrite.None? ==> !r
      ensures cb.archive.Some? && cb.readWrite.Some? ==> (r <==> cb.archive.value(serialNumber) > 0)
    {
      if cb.archive.None? || cb.readWrite.None? then false
      else cb.archive.value(serialNumber) > 0
    }

    /** `Write()`: FALSE (0) without a read-write callback, otherwise its
        answer for this serial with writing = 1. */
    function Write(cb: Callbacks): (rc: int)
      reads this
      ensures cb.readWrite.None? ==> rc == 0
      ensures cb.readWrite.Some? ==> rc == cb.readWrite.value(serialNumber, 1)
    {
      match cb.readWrite
      case None => 0
      case Some(io) => io(serialNumber, 1)
    }

    /** `Read()`: as `Write()` with writing = 0. */
    function Read(cb: Callbacks): (rc: int)
      reads this
      ensures cb.readWrite.None? ==> rc == 0
      ensures cb.readWrite.Some? ==> rc == cb.readWrite.value(serialNumber, 0)
    {
      match cb.readWrite
      case None => 0
      case Some(io) => io(serialNumber, 0)
    }

    /** The lazy cache only ever holds a listed entry for this managed type. */
    ghost predicate CacheAgrees(list: ClassIdList)
      reads this, list
    {
      classIdCache.Some? ==> classIdCache.value in list.classIds && classIdCache.value.uuid == managedTypeId
    }

    /** `ClassId()`: a cached entry is returned as is; otherwise the first
        listed entry for the managed type is cached; failing that, a fallback
        entry is appended and cached unless the managed type id is nil, in
        which case the base class id is answered. The list stays unique by
        UUID and only ever grows at its end. */
    method ClassId(list: ClassIdList) returns (r: ClassIdAnswer)
      requires list.Valid()
      modifies this`classIdCache, list
      ensures list.Valid()
      ensures old(list.classIds) <= list.classIds
      ensures old(classIdCache).Some? ==>
        r == Registered(old(classIdCache).value) && classIdCache == old(classIdCache) && list.classIds == old(list.classIds)
      ensures old(classIdCache).None? && old(Lookup(list.classIds, managedTypeId)).Some? ==>
        r == Registered(old(Lookup(list.classIds, managedTypeId)).value) &&
        classIdCache == old(Lookup(list.classIds, managedTypeId)) && list.classIds == old(list.classIds)
      ensures old(classIdCache).None? && old(Lookup(list.classIds, managedTypeId)).None? && managedTypeId != NilUuid ==>
        var c := NewClassId(managedTypeId, FallbackClassName, UserDataBaseName);
        r == Registered(c) && classIdCache == Some(c) && list.classIds == old(list.classIds) + [c]
      ensures old(classIdCache).None? && old(Lookup(list.classIds, managedTypeId)).None? && managedTypeId == NilUuid ==>
        r == BaseUserData && classIdCache.None? && list.classIds == old(list.classIds)
      ensures old(CacheAgrees(list)) && r.Registered? ==> CacheAgrees(list)
    {
      if classIdCache.None? {
        var i := 0;
        while i < |list.classIds|
          invariant 0 <= i <= |list.classIds|
          invariant forall j | 0 <= j < i :: list.classIds[j].uuid != managedTypeId
          invariant classIdCache.None?
        {
          if list.classIds[i].uuid == managedTypeId {
            classIdCache := Some(list.classIds[i]);
            break;
          }
          i := i + 1;
        }
        if classIdCache.None? && managedTypeId != NilUuid {
          var c := NewClassId(managedTypeId, FallbackClassName, UserDataBaseName);
          AppendKeepsUnique(list.classIds, c);
          classIdCache := Some(c);
          list.classIds := list.classIds + [c];
        }
        if classIdCache.None? {
          return BaseUserData;
        }
      }
      return Registered(classIdCache.value);
    }

    /** `DuplicateObject()`: NULL without a duplicate callback or when .NET
        answers a serial < 1; otherwise a new object with this one's type id,
        plug-in id and description and the serial .NET answered. */
    method DuplicateObject(cb: Callbacks) returns (r: CRhCmnUserData?)
      ensures cb.duplicate.None? ==> r == null
      ensures cb.duplicate.Some? && cb.duplicate.value(serialNumber) < 1 ==> r == null
      ensures cb.duplicate.Some? && cb.duplicate.value(serialNumber) >= 1 ==>
        r != null && fresh(r) && r.serialNumber == cb.duplicate.value(serialNumber) &&
        r.managedTypeId == managedTypeId && r.pluginId == pluginId && r.description == description &&
        r.classIdCache.None? && r.copyCount == 1
    {
      if cb.duplicate.None? {
        return null;
      }
      var native := new CRhCmnUserData(-1, managedTypeId, pluginId, description);
      var serial := cb.duplicate.value(serialNumber);
      if serial < 1 {
        return null;
      }
      native.serialNumber := serial;
      return native;
    }
  }

  /** `CopyRhCmnUserData`, the copy hook of every registered class id. A
      null argument stands for an object that is not a `CRhCmnUserData`.
      The copy is accepted exactly when both are such objects with equal
      plug-in and managed type ids; the destination serial is then replaced
      by the duplicate callback's answer only when it was < 1 and the
      callback is set, whatever the answer is. */
  method CopyRhCmnUserData(src: CRhCmnUserData?, dst: CRhCmnUserData?, cb: Callbacks) returns (ok: bool)
    modifies dst
    ensures ok <==> src != null && dst != null && dst.pluginId == src.pluginId && dst.managedTypeId == src.managedTypeId
    ensures ok && src != null && dst != null && old(dst.serialNumber) < 1 && cb.duplicate.Some? ==>
      dst.serialNumber == cb.duplicate.value(old(src.serialNumber))
    ensures dst != null && !(ok && old(dst.serialNumber) < 1 && cb.duplicate.Some?) ==>
      dst.serialNumber == old(dst.serialNumber)
    ensures dst != null ==> dst.classIdCache == old(dst.classIdCache)
  {
    if dst == null || src == null {
      return false;
    }
    if dst.pluginId != src.pluginId {
      return false;
    }
    if dst.managedTypeId != src.managedTypeId {
      return false;
    }
    if dst.serialNumber < 1 && cb.duplicate.Some? {
      var serial := cb.duplicate.value(src.serialNumber);
      dst.serialNumber := serial;
    }
    return true;
  }

  /** One piece of user data attached to an `ON_Object`: ours, or some other
      `ON_UserData` with its own UUID. */
  datatype AttachedUserData = RhCmn(data: CRhCmnUserData) | Foreign(uuid: Uuid)

  /** The UUID `ON_Object::GetUserData` matches on. */
  function UuidOf(u: AttachedUserData): Uuid
  {
    match u
    case RhCmn(d) => d.managedTypeId
    case Foreign(id) => id
  }

  /** An `ON_Object` as far as user data goes: its attached list, in order. */
  class OnObject {
    var userData: seq<AttachedUserData>

    constructor (userData: seq<AttachedUserData>)
      ensures this.userData == userData
    {
      this.userData := userData;
    }
  }

  /** `ON_Object::GetUserData(id)`: the first attached piece with that UUID.
      Its body belongs to the geometry library; it is taken to be a
      front-to-back search. */
  function GetUserData(items: seq<AttachedUserData>, id: Uuid): (r: Option<nat>)
    ensures r.Some? ==> r.value < |items| && UuidOf(items[r.value]) == id
    ensures r.Some? ==> forall j | 0 <= j < r.value :: UuidOf(items[j]) != id
    ensures r.None? ==> forall j | 0 <= j < |items| :: UuidOf(items[j]) != id
  {
    if |items| == 0 then None
    else if UuidOf(items[0]) == id then Some(0)
    else match GetUserData(items[1..], id)
      case None => None
      case Some(i) => Some(i + 1)
  }

  /** `CRhCmnUserData_Find`: the serial of the first user data of that type
      on the object when it is a `CRhCmnUserData`, -1 otherwise. */
  function Find(obj: OnObject?, managedTypeId: Uuid): (rc: int)
    reads obj, if obj == null then {} else set u | u in obj.userData && u.RhCmn? :: u.data
    ensures obj == null ==> rc == -1
    ensures obj != null && (forall u | u in obj.userData :: UuidOf(u) != managedTypeId) ==> rc == -1
    ensures obj != null ==> forall k | 0 <= k < |obj.userData| &&
      UuidOf(obj.userData[k]) == managedTypeId && (forall j | 0 <= j < k :: UuidOf(obj.userData[j]) != managedTypeId) ::
        rc == (if obj.userData[k].RhCmn? then obj.userData[k].data.serialNumber else -1)
  {
    if obj == null then -1
    else match GetUserData(obj.userData, managedTypeId)
      case None => -1
      case Some(i) =>
        match obj.userData[i]
        case RhCmn(d) => d.serialNumber
        case Foreign(_) => -1
  }

  /** When `Archive()` says TRUE, both directions of the I/O reach .NET with
      this object's serial. */
  lemma ArchivedDataReachesCallback(ud: CRhCmnUserData, cb: Callbacks)
    requires ud.Archive(cb)
    ensures cb.readWrite.Some?
    ensures ud.Write(cb) == cb.readWrite.value(ud.serialNumber, 1)
    ensures ud.Read(cb) == cb.readWrite.value(ud.serialNumber, 0)
  {
  }
}
