/** `RenderContent.RegisterContent`: picks the instantiable render-content
    types an assembly exports, rejects the whole batch if any of them is
    already registered, and otherwise records them all for the plug-in and
    tells the native engine about each one once per content category. */
module ContentRegistration {
  import opened Wrappers
  import opened Uuids

  /** The native factories: one per content category. */
  datatype Category = TextureCategory | MaterialCategory | EnvironmentCategory

  /** What reflection reports about one exported type. */
  datatype TypeDescriptor = TypeDescriptor(
    typeId: Uuid,               // `Type.GUID`
    isAbstract: bool,           // `Type.IsAbstract`
    isContentSubclass: bool,    // `IsSubclassOf(typeof(RenderContent))`
    hasNoArgConstructor: bool,  // `GetConstructor(new Type[] { }) != null`
    bases: set<Category>)       // which of `RenderTexture`, `RenderMaterial`, `RenderEnvironment` it derives from

  /** The loaded plug-ins and those that have an RDK plug-in. */
  datatype PlugInHost = PlugInHost(loaded: set<Uuid>, withRdk: set<Uuid>)

  /** One call of `Rdk_AddTextureFactory`, `Rdk_AddMaterialFactory` or `Rdk_AddEnvironmentFactory`. */
  datatype FactoryNotice = FactoryNotice(category: Category, typeId: Uuid)

  /** A type that can be registered: concrete, a render content, and constructible without arguments. */
  predicate Eligible(t: TypeDescriptor)
  {
    !t.isAbstract && t.isContentSubclass && t.hasNoArgConstructor
  }

  /** The eligible exported types, in export order. */
  function EligibleTypes(exported: seq<TypeDescriptor>): (r: seq<TypeDescriptor>)
    ensures |r| <= |exported|
    ensures forall t :: t in r <==> t in exported && Eligible(t)
  {
    if exported == [] then []
    else
      var last := exported[|exported| - 1];
      EligibleTypes(exported[..|exported| - 1]) + (if Eligible(last) then [last] else [])
  }

  /** The factory notices for one type: texture, material, environment, each
      only for a category the type derives from. */
  function TypeNotices(t: TypeDescriptor): (r: seq<FactoryNotice>)
    ensures |r| <= 3
  {
    (if TextureCategory in t.bases then [FactoryNotice(TextureCategory, t.typeId)] else [])
    + (if MaterialCategory in t.bases then [FactoryNotice(MaterialCategory, t.typeId)] else [])
    + (if EnvironmentCategory in t.bases then [FactoryNotice(EnvironmentCategory, t.typeId)] else [])
  }

  /** The factory notices for a batch, type by type in batch order. */
  function Notices(types: seq<TypeDescriptor>): seq<FactoryNotice>
  {
    if types == [] then [] else Notices(types[..|types| - 1]) + TypeNotices(types[|types| - 1])
  }

  /** A type gets a notice for a category exactly when it derives from that category. */
  lemma TypeNoticesCover(t: TypeDescriptor, n: FactoryNotice)
    ensures n in TypeNotices(t) <==> n.typeId == t.typeId && n.category in t.bases
  {
    match n.category
    case TextureCategory =>
    case MaterialCategory =>
    case EnvironmentCategory =>
  }

  /** One more type of a batch adds that type's notices at the end. */
  lemma NoticesStep(types: seq<TypeDescriptor>, k: nat)
    requires k < |types|
    ensures Notices(types[..k + 1]) == Notices(types[..k]) + TypeNotices(types[k])
  {
    assert types[..k + 1][..k] == types[..k];
  }

  /** A batch gets a notice for a category and type id exactly when one of
      its types has that id and derives from that category. */
  lemma {:induction false} NoticesCover(types: seq<TypeDescriptor>, n: FactoryNotice)
    ensures n in Notices(types) <==> exists t | t in types :: n.typeId == t.typeId && n.category in t.bases
  {
    if types != [] {
      var init, last := types[..|types| - 1], types[|types| - 1];
      assert types == init + [last];
      NoticesCover(init, n);
      TypeNoticesCover(last, n);
      if n in TypeNotices(last) {
        assert last in types;
      }
      if exists t | t in types :: n.typeId == t.typeId && n.category in t.bases {
        var t :| t in types && n.typeId == t.typeId && n.category in t.bases;
        if t != last {
          assert t in init;
        }
      }
    }
  }

  /** Each type of a batch gets one notice per category it derives from. */
  lemma {:induction false} NoticesCount(types: seq<TypeDescriptor>)
    ensures |Notices(types)| == SumOfCategories(types)
  {
    if types != [] {
      NoticesCount(types[..|types| - 1]);
      var t := types[|types| - 1];
      assert |TypeNotices(t)| == |t.bases| by {
        CategoriesCount(t.bases);
      }
    }
  }

  /** The number of categories, one for each element of the set. */
  lemma CategoriesCount(bases: set<Category>)
    ensures |bases| == (if TextureCategory in bases then 1 else 0)
                     + (if MaterialCategory in bases then 1 else 0)
                     + (if EnvironmentCategory in bases then 1 else 0)
  {
    forall c | c in bases
      ensures c == TextureCategory || c == MaterialCategory || c == EnvironmentCategory
    {
      match c
      case TextureCategory =>
      case MaterialCategory =>
      case EnvironmentCategory =>
    }
    var t, m, e := TextureCategory in bases, MaterialCategory in bases, EnvironmentCategory in bases;
    if t && m && e {
      assert bases == {TextureCategory, MaterialCategory, EnvironmentCategory};
    } else if t && m {
      assert bases == {TextureCategory, MaterialCategory};
    } else if t && e {
      assert bases == {TextureCategory, EnvironmentCategory};
    } else if m && e {
      assert bases == {MaterialCategory, EnvironmentCategory};
    } else if t {
      assert bases == {TextureCategory};
    } else if m {
      assert bases == {MaterialCategory};
    } else if e {
      assert bases == {EnvironmentCategory};
    } else {
      assert bases == {};
    }
  }

  /** The total number of categories the types of a batch derive from. */
  function SumOfCategories(types: seq<TypeDescriptor>): nat
  {
    if types == [] then 0 else SumOfCategories(types[..|types| - 1]) + |types[|types| - 1].bases|
  }

  /** The conditions under which `RegisterContent` returns null and touches
      nothing: unknown plug-in, no eligible type, an eligible type already
      registered, or no RDK plug-in for the plug-in. */
  predicate Rejected(exported: seq<TypeDescriptor>, pluginId: Uuid, host: PlugInHost, registered: set<TypeDescriptor>)
  {
    || pluginId !in host.loaded
    || EligibleTypes(exported) == []
    || (exists t | t in EligibleTypes(exported) :: t in registered)
    || pluginId !in host.withRdk
  }

  /** Once a batch with an eligible type has been registered, registering the
      same export list again, for any plug-in, is rejected. */
  lemma SecondRegistrationRejected(exported: seq<TypeDescriptor>, pluginId: Uuid, host: PlugInHost, registered: set<TypeDescriptor>)
    requires EligibleTypes(exported) != []
    requires forall t | t in EligibleTypes(exported) :: t in registered
    ensures Rejected(exported, pluginId, host, registered)
  {
    var t := EligibleTypes(exported)[0];
    assert t in EligibleTypes(exported) && t in registered;
  }

  /** A single concrete texture type under a plug-in with an RDK plug-in
      yields a one-element result and exactly one texture-factory notice. */
  lemma SingleTextureScenario(t: TypeDescriptor, pluginId: Uuid, host: PlugInHost, registered: set<TypeDescriptor>)
    requires Eligible(t) && t.bases == {TextureCategory} && t !in registered
    requires pluginId in host.loaded && pluginId in host.withRdk
    ensures !Rejected([t], pluginId, host, registered)
    ensures EligibleTypes([t]) == [t]
    ensures Notices([t]) == [FactoryNotice(TextureCategory, t.typeId)]
  {
    assert [t][..0] == [];
  }

  /** Every notice names a type of `types` and one of that type's categories. */
  ghost predicate Justified(notices: seq<FactoryNotice>, types: set<TypeDescriptor>)
  {
    forall n | n in notices :: exists t | t in types :: t.typeId == n.typeId && n.category in t.bases
  }

  /** Registering more types keeps every earlier notice justified. */
  lemma JustifiedGrows(notices: seq<FactoryNotice>, types: set<TypeDescriptor>, more: set<TypeDescriptor>)
    requires Justified(notices, types) && types <= more
    ensures Justified(notices, more)
  {
    forall n | n in notices
      ensures exists t | t in more :: t.typeId == n.typeId && n.category in t.bases
    {
      var t :| t in types && t.typeId == n.typeId && n.category in t.bases;
      assert t in more;
    }
  }

  /** The notices for a registered batch are justified by the registered types. */
  lemma JustifiedAfterBatch(notices: seq<FactoryNotice>, batch: seq<TypeDescriptor>, types: set<TypeDescriptor>)
    requires Justified(notices, types)
    requires forall t | t in batch :: t in types
    ensures Justified(notices + Notices(batch), types)
  {
    forall n | n in notices + Notices(batch)
      ensures exists t | t in types :: t.typeId == n.typeId && n.category in t.bases
    {
      if n !in notices {
        NoticesCover(batch, n);
      }
    }
  }

  /** The RDK plug-ins' record of registered content types, and the factory
      notices sent to the native engine so far. */
  class ContentTypeRegistry {
    /** Registered type to the plug-in it was registered for. */
    var registered: map<TypeDescriptor, Uuid>
    /** The factory calls made, oldest first. */
    var notices: seq<FactoryNotice>

    /** Every factory notice names a registered type and one of its categories. */
    ghost predicate Valid()
      reads this
    {
      Justified(notices, registered.Keys)
    }

    constructor ()
      ensures Valid() && registered == map[] && notices == []
    {
      registered := map[];
      notices := [];
    }

    /** `RegisterContent`: null, with nothing changed, when `Rejected` holds;
        otherwise all eligible types in export order, each now registered to
        the plug-in, after one factory notice per type and category. */
    method RegisterContent(exported: seq<TypeDescriptor>, pluginId: Uuid, host: PlugInHost)
      returns (r: Option<seq<TypeDescriptor>>)
      requires Valid()
      modifies this
      ensures Valid()
      ensures r.None? <==> Rejected(exported, pluginId, host, old(registered).Keys)
      ensures r.None? ==> registered == old(registered) && notices == old(notices)
      ensures r.Some? ==>
        && r.value == EligibleTypes(exported)
        && registered == old(registered) + (map t | t in r.value :: pluginId)
        && notices == old(notices) + Notices(r.value)
    {
      if pluginId !in host.loaded {
        return None;
      }
      var contentTypes := CollectEligible(exported);
      if |contentTypes| == 0 {
        return None;
      }
      var alreadyRegistered := AnyRegistered(contentTypes);
      if alreadyRegistered {
        return None;
      }
      if pluginId !in host.withRdk {
        return None;
      }
      assert !Rejected(exported, pluginId, host, old(registered).Keys);
      AddRegisteredContentTypes(contentTypes, pluginId);
      NotifyFactories(contentTypes);
      return Some(contentTypes);
    }

    /** The first loop of `RegisterContent`: the eligible exported types, in export order. */
    static method CollectEligible(exported: seq<TypeDescriptor>) returns (contentTypes: seq<TypeDescriptor>)
      ensures contentTypes == EligibleTypes(exported)
    {
      contentTypes := [];
      var i := 0;
      while i < |exported|
        invariant 0 <= i <= |exported|
        invariant contentTypes == EligibleTypes(exported[..i])
      {
        var t := exported[i];
        assert exported[..i + 1][..i] == exported[..i];
        if !t.isAbstract && t.isContentSubclass && t.hasNoArgConstructor {
          contentTypes := contentTypes + [t];
        }
        i := i + 1;
      }
      assert exported[..|exported|] == exported;
    }

    /** The second loop of `RegisterContent`: whether some type of the batch
        is already registered (`RdkPlugIn.RenderContentTypeIsRegistered`). */
    method AnyRegistered(contentTypes: seq<TypeDescriptor>) returns (found: bool)
      ensures found <==> exists t | t in contentTypes :: t in registered
    {
      var i := 0;
      while i < |contentTypes|
        invariant 0 <= i <= |contentTypes|
        invariant forall j | 0 <= j < i :: contentTypes[j] !in registered
      {
        if contentTypes[i] in registered {
          return true;
        }
        i := i + 1;
      }
      return false;
    }

    /** `RdkPlugIn.AddRegisteredContentTypes`: records each type of the batch
        as registered to the plug-in; earlier registrations are kept. */
    method AddRegisteredContentTypes(contentTypes: seq<TypeDescriptor>, pluginId: Uuid)
      requires Valid()
      modifies this`registered
      ensures Valid()
      ensures registered == old(registered) + (map t | t in contentTypes :: pluginId)
      ensures old(registered).Keys <= registered.Keys
    {
      registered := registered + (map t | t in contentTypes :: pluginId);
      JustifiedGrows(notices, old(registered).Keys, registered.Keys);
    }

    /** The body of the notice loop: the texture, material and environment
        factory calls for one type, each made only for a category it derives from. */
    method NotifyTypeFactories(t: TypeDescriptor)
      modifies this`notices
      ensures notices == old(notices) + TypeNotices(t)
    {
      if TextureCategory in t.bases {
        notices := notices + [FactoryNotice(TextureCategory, t.typeId)];
      }
      if MaterialCategory in t.bases {
        notices := notices + [FactoryNotice(MaterialCategory, t.typeId)];
      }
      if EnvironmentCategory in t.bases {
        notices := notices + [FactoryNotice(EnvironmentCategory, t.typeId)];
      }
    }

    /** The notice loop of `RegisterContent`: one factory notice per type and
        category, in batch order, for a batch already registered. */
    method NotifyFactories(contentTypes: seq<TypeDescriptor>)
      requires Valid()
      requires forall t | t in contentTypes :: t in registered
      modifies this`notices
      ensures Valid()
      ensures notices == old(notices) + Notices(contentTypes)
    {
      var k := 0;
      while k < |contentTypes|
        invariant 0 <= k <= |contentTypes|
        invariant notices == old(notices) + Notices(contentTypes[..k])
      {
        var t := contentTypes[k];
        NotifyTypeFactories(t);
        NoticesStep(contentTypes, k);
        k := k + 1;
      }
      assert contentTypes[..k] == contentTypes;
      JustifiedAfterBatch(old(notices), contentTypes, registered.Keys);
    }
  }
}
