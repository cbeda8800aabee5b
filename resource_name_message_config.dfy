/**
 * ResourceNameMessageConfig: for one message, the map from the simple name of a
 * field to the name of the resource entity that field refers to.
 */
module ResourceNames {
  import opened Wrappers
  import opened Names

  /** The resource-name configuration of one message. */
  datatype ResourceNameMessageConfig = ResourceNameMessageConfig(
    messageName: string,                 // fully qualified message name
    fieldEntityMap: map<string, string>) // field simple name -> entity name

  /** The explicit configuration record (ResourceNameMessageConfigProto). */
  datatype ResourceNameMessageConfigProto = ResourceNameMessageConfigProto(
    messageName: string,
    fieldEntityMap: map<string, string>)

  /** The google.api.resource_reference annotation of a field. */
  datatype ResourceReference = ResourceReference(resourceType: string, childType: string)

  /** A message field; `resourceReference` is None when the field carries no annotation. */
  datatype Field = Field(simpleName: string, resourceReference: Option<ResourceReference>)

  datatype MessageType = MessageType(fullName: string, fields: seq<Field>)

  /** A registry entry: a known resource type and its derived entity name. */
  datatype ResourceDescriptorConfig = ResourceDescriptorConfig(derivedEntityName: string)

  /** The IllegalArgumentException raised for a dangling reference, with the type and the known keys. */
  datatype ConfigError = UnknownResourceReference(resourceType: string, knownTypes: set<string>)

  /** Java's `messageName.contains(".")` and the default-package qualification. */
  function GetFullyQualifiedMessageName(defaultPackage: string, messageName: string): (r: string)
    ensures '.' in messageName ==> r == messageName
    ensures '.' !in messageName ==> r == defaultPackage + "." + messageName
    ensures '.' in r
    ensures |r| >= |messageName| && r[|r| - |messageName|..] == messageName
  {
    if '.' in messageName then messageName
    else
      var r := defaultPackage + "." + messageName;
      assert r[|defaultPackage|] == '.';
      r
  }

  /** Qualifying an already qualified name changes nothing. */
  lemma QualifyIdempotent(defaultPackage: string, messageName: string)
    ensures var once := GetFullyQualifiedMessageName(defaultPackage, messageName);
      GetFullyQualifiedMessageName(defaultPackage, once) == once
  {
  }

  /** The factory for an explicit configuration record. */
  function CreateResourceNameMessageConfig(
    proto: ResourceNameMessageConfigProto, defaultPackage: string): (r: ResourceNameMessageConfig)
    ensures r.fieldEntityMap == proto.fieldEntityMap
    ensures '.' in proto.messageName ==> r.messageName == proto.messageName
    ensures '.' !in proto.messageName ==> r.messageName == defaultPackage + "." + proto.messageName
    ensures '.' in r.messageName
  {
    ResourceNameMessageConfig(
      GetFullyQualifiedMessageName(defaultPackage, proto.messageName),
      proto.fieldEntityMap)
  }

  /** The type a reference names: `type`, or `child_type` when `type` is empty. */
  function ResolvedType(ref: ResourceReference): string
  {
    if ref.resourceType == "" then ref.childType else ref.resourceType
  }

  /** The field is unannotated or its annotation names a registered type. */
  predicate ReferenceKnown(field: Field, descriptorMap: map<string, ResourceDescriptorConfig>)
  {
    field.resourceReference.Some? ==> ResolvedType(field.resourceReference.value) in descriptorMap
  }

  predicate AllReferencesKnown(fields: seq<Field>, descriptorMap: map<string, ResourceDescriptorConfig>)
  {
    forall i :: 0 <= i < |fields| ==> ReferenceKnown(fields[i], descriptorMap)
  }

  /** Field `i` is the first whose annotation names an unregistered type. */
  predicate FirstUnknownAt(fields: seq<Field>, descriptorMap: map<string, ResourceDescriptorConfig>, i: int)
  {
    0 <= i < |fields| && !ReferenceKnown(fields[i], descriptorMap) && AllReferencesKnown(fields[..i], descriptorMap)
  }

  /** The entity name an annotated field with a known reference maps to. */
  function EntityNameOf(field: Field, descriptorMap: map<string, ResourceDescriptorConfig>): string
    requires field.resourceReference.Some? && ReferenceKnown(field, descriptorMap)
  {
    descriptorMap[ResolvedType(field.resourceReference.value)].derivedEntityName
  }

  /** The map the builder holds after the given fields, in order (a later put wins). */
  function EntityMapOf(fields: seq<Field>, descriptorMap: map<string, ResourceDescriptorConfig>): map<string, string>
    requires AllReferencesKnown(fields, descriptorMap)
  {
    if fields == [] then map[]
    else
      var last := fields[|fields| - 1];
      var prefix := fields[..|fields| - 1];
      assert AllReferencesKnown(prefix, descriptorMap) by {
        forall i | 0 <= i < |prefix| ensures ReferenceKnown(prefix[i], descriptorMap) {
          assert prefix[i] == fields[i];
        }
      }
      assert ReferenceKnown(last, descriptorMap);
      var m := EntityMapOf(prefix, descriptorMap);
      if last.resourceReference.Some? then m[last.simpleName := EntityNameOf(last, descriptorMap)] else m
  }

  /** The simple names of the annotated fields. */
  function AnnotatedNames(fields: seq<Field>): set<string>
  {
    set i | 0 <= i < |fields| && fields[i].resourceReference.Some? :: fields[i].simpleName
  }

  /** No two fields share a simple name (as in a well-formed protobuf message). */
  predicate DistinctSimpleNames(fields: seq<Field>)
  {
    forall i, j :: 0 <= i < j < |fields| ==> fields[i].simpleName != fields[j].simpleName
  }

  /**
   * The annotation path: scan the fields, resolve each annotation in the registry, and
   * fail at the first annotated field whose type is not registered.
   */
  method CreateFromAnnotationsOnMessage(
    messageType: MessageType, descriptorMap: map<string, ResourceDescriptorConfig>)
    returns (r: Result<ResourceNameMessageConfig, ConfigError>)
    ensures r.Success? <==> AllReferencesKnown(messageType.fields, descriptorMap)
    ensures r.Success? ==> (AllReferencesKnown(messageType.fields, descriptorMap) &&
      r.value == ResourceNameMessageConfig(messageType.fullName, EntityMapOf(messageType.fields, descriptorMap)))
    ensures r.Failure? ==>
              exists i :: FirstUnknownAt(messageType.fields, descriptorMap, i) &&
                          r.error == UnknownResourceReference(
                            ResolvedType(messageType.fields[i].resourceReference.value), descriptorMap.Keys)
  {
    var fields := messageType.fields;
    var builder: map<string, string> := map[];
    var i := 0;
    while i < |fields|
      invariant 0 <= i <= |fields|
      invariant AllReferencesKnown(fields[..i], descriptorMap)
      invariant builder == EntityMapOf(fields[..i], descriptorMap)
    {
      var field := fields[i];
      assert fields[..i + 1][..i] == fields[..i];
      if field.resourceReference.Some? {
        var ref := field.resourceReference.value;
        var resourceType := ResolvedType(ref);
        if resourceType !in descriptorMap {
          assert FirstUnknownAt(fields, descriptorMap, i);
          return Failure(UnknownResourceReference(resourceType, descriptorMap.Keys));
        }
        builder := builder[field.simpleName := descriptorMap[resourceType].derivedEntityName];
      }
      i := i + 1;
    }
    assert fields[..i] == fields;
    return Success(ResourceNameMessageConfig(messageType.fullName, builder));
  }

  /** On success, the keys are exactly the simple names of the annotated fields. */
  lemma {:induction false} EntityMapKeys(fields: seq<Field>, descriptorMap: map<string, ResourceDescriptorConfig>)
    requires AllReferencesKnown(fields, descriptorMap)
    ensures EntityMapOf(fields, descriptorMap).Keys == AnnotatedNames(fields)
  {
    if fields != [] {
      var prefix := fields[..|fields| - 1];
      assert AllReferencesKnown(prefix, descriptorMap) by {
        forall i | 0 <= i < |prefix| ensures ReferenceKnown(prefix[i], descriptorMap) {
          assert prefix[i] == fields[i];
        }
      }
      EntityMapKeys(prefix, descriptorMap);
      var last := fields[|fields| - 1];
      var extra := if last.resourceReference.Some? then {last.simpleName} else {};
      assert AnnotatedNames(fields) == AnnotatedNames(prefix) + extra by {
        forall n | n in AnnotatedNames(fields) ensures n in AnnotatedNames(prefix) + extra {
          var i :| 0 <= i < |fields| && fields[i].resourceReference.Some? && fields[i].simpleName == n;
          if i < |prefix| { assert prefix[i] == fields[i]; }
        }
        forall n | n in AnnotatedNames(prefix) ensures n in AnnotatedNames(fields) {
          var i :| 0 <= i < |prefix| && prefix[i].resourceReference.Some? && prefix[i].simpleName == n;
          assert fields[i] == prefix[i];
        }
      }
    }
  }

  /**
   * On success, each value is the derived entity name of the last annotated field bearing
   * that key, so in particular the entity name of a registered descriptor.
   */
  lemma {:induction false} EntityMapValues(fields: seq<Field>, descriptorMap: map<string, ResourceDescriptorConfig>)
    requires AllReferencesKnown(fields, descriptorMap)
    ensures forall k :: k in EntityMapOf(fields, descriptorMap) ==>
      exists i :: 0 <= i < |fields| && fields[i].resourceReference.Some? && fields[i].simpleName == k &&
        EntityMapOf(fields, descriptorMap)[k] == EntityNameOf(fields[i], descriptorMap) &&
        forall j :: i < j < |fields| ==> fields[j].resourceReference.None? || fields[j].simpleName != k
    ensures forall k :: k in EntityMapOf(fields, descriptorMap) ==>
      exists t :: t in descriptorMap && EntityMapOf(fields, descriptorMap)[k] == descriptorMap[t].derivedEntityName
  {
    if fields != [] {
      var prefix := fields[..|fields| - 1];
      var last := fields[|fields| - 1];
      var pm := EntityMapOf(prefix, descriptorMap);
      assert AllReferencesKnown(prefix, descriptorMap) by {
        forall i | 0 <= i < |prefix| ensures ReferenceKnown(prefix[i], descriptorMap) {
          assert prefix[i] == fields[i];
        }
      }
      EntityMapValues(prefix, descriptorMap);
      var m := EntityMapOf(fields, descriptorMap);
      forall k | k in m
        ensures exists i :: (0 <= i < |fields| && fields[i].resourceReference.Some? && fields[i].simpleName == k &&
          m[k] == EntityNameOf(fields[i], descriptorMap) &&
          forall j :: i < j < |fields| ==> fields[j].resourceReference.None? || fields[j].simpleName != k)
      {
        if last.resourceReference.Some? && last.simpleName == k {
          assert fields[|fields| - 1] == last;
        } else {
          assert k in pm && m[k] == pm[k];
          var i :| 0 <= i < |prefix| && prefix[i].resourceReference.Some? && prefix[i].simpleName == k &&
            EntityMapOf(prefix, descriptorMap)[k] == EntityNameOf(prefix[i], descriptorMap) &&
            forall j :: i < j < |prefix| ==> prefix[j].resourceReference.None? || prefix[j].simpleName != k;
          assert fields[i] == prefix[i];
          forall j | i < j < |fields| ensures fields[j].resourceReference.None? || fields[j].simpleName != k {
            if j < |prefix| { assert fields[j] == prefix[j]; }
          }
        }
      }
      forall k | k in m
        ensures exists t :: t in descriptorMap && m[k] == descriptorMap[t].derivedEntityName
      {
        var i :| 0 <= i < |fields| && fields[i].resourceReference.Some? && fields[i].simpleName == k &&
          m[k] == EntityNameOf(fields[i], descriptorMap);
        assert ReferenceKnown(fields[i], descriptorMap);
        var t := ResolvedType(fields[i].resourceReference.value);
        assert t in descriptorMap && m[k] == descriptorMap[t].derivedEntityName;
      }
    }
  }

  /**
   * With distinct simple names, every annotated field maps to its own entity name and
   * every unannotated field is absent.
   */
  lemma EntityMapDistinctNames(fields: seq<Field>, descriptorMap: map<string, ResourceDescriptorConfig>)
    requires AllReferencesKnown(fields, descriptorMap) && DistinctSimpleNames(fields)
    ensures forall i :: 0 <= i < |fields| && fields[i].resourceReference.Some? ==>
      fields[i].simpleName in EntityMapOf(fields, descriptorMap) &&
      EntityMapOf(fields, descriptorMap)[fields[i].simpleName] == EntityNameOf(fields[i], descriptorMap)
    ensures forall i :: 0 <= i < |fields| && fields[i].resourceReference.None? ==>
      fields[i].simpleName !in EntityMapOf(fields, descriptorMap)
  {
    EntityMapKeys(fields, descriptorMap);
    EntityMapValues(fields, descriptorMap);
    var m := EntityMapOf(fields, descriptorMap);
    forall i | 0 <= i < |fields| && fields[i].resourceReference.Some?
      ensures fields[i].simpleName in m && m[fields[i].simpleName] == EntityNameOf(fields[i], descriptorMap)
    {
      var k := fields[i].simpleName;
      assert k in AnnotatedNames(fields);
      var i' :| 0 <= i' < |fields| && fields[i'].resourceReference.Some? && fields[i'].simpleName == k &&
        m[k] == EntityNameOf(fields[i'], descriptorMap);
      assert i' == i;
    }
    forall i | 0 <= i < |fields| && fields[i].resourceReference.None?
      ensures fields[i].simpleName !in m
    {
      assert forall i' :: 0 <= i' < |fields| && fields[i'].resourceReference.Some? ==>
        fields[i'].simpleName != fields[i].simpleName;
    }
  }

  /** ResourceNameMessageConfig.entityNameToName: snake parsing iff the name contains an underscore. */
  function EntityNameToName(parsers: NameParsers, original: string): (r: Name)
    ensures '_' in original ==> r == parsers.from(original)
    ensures '_' !in original ==> r == parsers.anyCamel(original)
  {
    if '_' in original then parsers.from(original) else parsers.anyCamel(original)
  }

  /** The lookup accessor: the mapped entity name, or None for a field without a resource. */
  function GetEntityNameForField(config: ResourceNameMessageConfig, fieldSimpleName: string): (r: Option<string>)
    ensures r.Some? <==> fieldSimpleName in config.fieldEntityMap
    ensures r.Some? ==> r.value == config.fieldEntityMap[fieldSimpleName]
  {
    if fieldSimpleName in config.fieldEntityMap then Some(config.fieldEntityMap[fieldSimpleName]) else None
  }

  /**
   * Looking up a field of a message whose annotation-path config was built: an annotated
   * field yields its descriptor's entity name, an unannotated one yields nothing.
   */
  lemma AnnotationConfigLookup(messageType: MessageType, descriptorMap: map<string, ResourceDescriptorConfig>, i: nat)
    requires AllReferencesKnown(messageType.fields, descriptorMap) && DistinctSimpleNames(messageType.fields)
    requires i < |messageType.fields|
    ensures var config := ResourceNameMessageConfig(messageType.fullName, EntityMapOf(messageType.fields, descriptorMap));
      var field := messageType.fields[i];
      GetEntityNameForField(config, field.simpleName) ==
        if field.resourceReference.Some? then Some(EntityNameOf(field, descriptorMap)) else None
  {
    EntityMapDistinctNames(messageType.fields, descriptorMap);
  }
}
