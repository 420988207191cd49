/** The global list of user-data class ids (`g_classIds`): one `ON_ClassId`
    per registered managed user-data type, searched front to back by UUID. */
module UserDataClassIds {
  import opened Wrappers
  import opened Uuids

  /** A `CRhCmnClassId`: its UUID (the managed type id, passed as text to
      `ON_ClassId`), the managed type it creates, and its class names. */
  datatype ClassId = ClassId(uuid: Uuid, managedObjectType: Uuid, className: string, baseClassName: string)

  /** The class id registered for a managed type. */
  function NewClassId(managedTypeId: Uuid, className: string, baseClassName: string): (c: ClassId)
    ensures c.uuid == managedTypeId && c.managedObjectType == managedTypeId
  {
    ClassId(managedTypeId, managedTypeId, className, baseClassName)
  }

  /** No two entries share a UUID. */
  ghost predicate UniqueUuids(ids: seq<ClassId>)
  {
    forall i, j | 0 <= i < j < |ids| :: ids[i].uuid != ids[j].uuid
  }

  /** The index of the first entry with that UUID, if any. */
  function IndexOfUuid(ids: seq<ClassId>, id: Uuid): (r: Option<nat>)
    ensures r.Some? ==> r.value < |ids| && ids[r.value].uuid == id
    ensures r.Some? ==> forall j | 0 <= j < r.value :: ids[j].uuid != id
    ensures r.None? <==> forall j | 0 <= j < |ids| :: ids[j].uuid != id
  {
    if |ids| == 0 then None
    else if ids[0].uuid == id then Some(0)
    else match IndexOfUuid(ids[1..], id)
      case None => None
      case Some(i) => Some(i + 1)
  }

  /** The entry `GetClassId` returns, none for NULL. */
  function Lookup(ids: seq<ClassId>, id: Uuid): Option<ClassId>
  {
    match IndexOfUuid(ids, id)
    case None => None
    case Some(i) => Some(ids[i])
  }

  /** Appending an entry whose UUID is absent keeps the UUIDs unique. */
  lemma AppendKeepsUnique(ids: seq<ClassId>, c: ClassId)
    requires UniqueUuids(ids) && Lookup(ids, c.uuid).None?
    ensures UniqueUuids(ids + [c])
  {
    forall i, j | 0 <= i < j < |ids + [c]|
      ensures (ids + [c])[i].uuid != (ids + [c])[j].uuid
    {
      if j == |ids| {
        assert ids[i].uuid != c.uuid;
      }
    }
  }

  /** Appending leaves the lookup of every UUID already present unchanged. */
  lemma {:induction false} LookupAppend(ids: seq<ClassId>, c: ClassId, id: Uuid)
    requires Lookup(ids, id).Some?
    ensures Lookup(ids + [c], id) == Lookup(ids, id)
  {
    if ids[0].uuid != id {
      assert (ids + [c])[1..] == ids[1..] + [c];
      LookupAppend(ids[1..], c, id);
    }
  }

  /** An entry appended for an absent UUID is what a later lookup finds. */
  lemma {:induction false} AppendThenLookup(ids: seq<ClassId>, c: ClassId)
    requires Lookup(ids, c.uuid).None?
    ensures Lookup(ids + [c], c.uuid) == Some(c)
  {
    if |ids| > 0 {
      assert (ids + [c])[1..] == ids[1..] + [c];
      AppendThenLookup(ids[1..], c);
    }
  }

  /** `CRhCmnClassIdList`: the process-wide list. */
  class ClassIdList {
    /** `m_class_ids`, in registration order. */
    var classIds: seq<ClassId>

    ghost predicate Valid()
      reads this
    {
      UniqueUuids(classIds)
    }

    constructor ()
      ensures Valid() && classIds == []
    {
      classIds := [];
    }

    /** `GetClassId`: the first entry whose UUID equals `id`, NULL (none) when there is none. */
    method GetClassId(id: Uuid) returns (r: Option<ClassId>)
      ensures r == Lookup(classIds, id)
      ensures r.Some? ==> r.value in classIds && r.value.uuid == id
      ensures r.None? ==> forall c | c in classIds :: c.uuid != id
    {
      var i := 0;
      while i < |classIds|
        invariant 0 <= i <= |classIds|
        invariant forall j | 0 <= j < i :: classIds[j].uuid != id
      {
        if classIds[i].uuid == id {
          return Some(classIds[i]);
        }
        i := i + 1;
      }
      return None;
    }

    /** `ON_UserData_RegisterCustomUserData`: with an empty name or a UUID
        already listed nothing happens; otherwise exactly one entry is
        appended, so the UUIDs stay unique. */
    method RegisterCustomUserData(managedTypeName: string, managedTypeId: Uuid)
      requires Valid()
      modifies this
      ensures Valid()
      ensures |managedTypeName| < 1 || old(Lookup(classIds, managedTypeId)).Some? ==> classIds == old(classIds)
      ensures |managedTypeName| >= 1 && old(Lookup(classIds, managedTypeId)).None? ==>
        classIds == old(classIds) + [NewClassId(managedTypeId, managedTypeName, "ON_UserData")]
    {
      var existing := GetClassId(managedTypeId);
      if |managedTypeName| < 1 || existing.Some? {
        return;
      }
      var c := NewClassId(managedTypeId, managedTypeName, "ON_UserData");
      AppendKeepsUnique(classIds, c);
      classIds := classIds + [c];
    }
  }
}
