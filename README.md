# Naming and identity rules of the API client generator, in Dafny

This project models three small pieces of the client-library generator, with no I/O:

- **Resource-name message configuration** (`ResourceNames`, from
  `ResourceNameMessageConfig.java`). For one message, this is the map from a field's simple name to
  the name of the resource entity the field refers to. It is built one of two ways:
  - from an explicit configuration record, where the message name is qualified against a
    default package and the map is copied;
  - by scanning the message's fields for resource-reference annotations. Each annotation's
    `type` (or `child_type` when `type` is empty) is looked up in a registry of resource
    descriptors, and the build fails at the first type the registry does not know.

  The module also covers the per-field lookup and the snake/camel dispatch of
  `entityNameToName`.
- **PHP package metadata namer** (`PhpMetadataNaming`, from `PhpPackageMetadataNamer.java`). It
  derives the Composer `vendor/project` identifier from a PHP package name and an optional domain
  layer location. It also derives the service name from the version-free package name.
- **HTTP option views** (`PhpHttpStub`, from `PhpPackageHttpStubTransformer.java`). For each
  `google.api.http` option of a method, the transformer emits one key/value view for each non-empty
  binding, in the order get, put, post, delete, patch, body.

Helpers whose code is not part of this model are passed in as function values:
- `Name.from`, `Name.anyCamel`, `Name.upperCamel` and `toUpperCamel` are fields of `Names.NameParsers`;
- `PhpPackageUtil.formatComposerPackageName`, `splitPackageName`, `getPackageNameBeforeVersion`
  and `PACKAGE_SEPARATOR` are fields of `PhpMetadataNaming.PhpPackageUtil`.

The contracts therefore say which helper gets which argument and which branch is taken. They say
nothing about how those helpers tokenise, lowercase or strip versions.

Where each `java.lang.String` operation is modelled:
- `indexOf` is `StringUtil.IndexOf`. It counts characters, where Java counts UTF-16 code units, so
  the two indices differ when a character outside the Basic Multilingual Plane precedes the
  separator. The vendor and project cut at that index are the same either way.
- `startsWith` is `StringUtil.StartsWith`.
- `substring` is a Dafny sequence slice, inside `ComposerVendorAndProject` and the namer's
  constructor.
- `contains(".")` and `contains("_")` on a one-character argument are Dafny `in` tests on
  characters, in `GetFullyQualifiedMessageName` and `EntityNameToName`.

`StringUtil.java` is not part of this model. `StringUtil.RemovePrefix` is therefore given the
behaviour its name and its call site describe: it drops one leading occurrence of the prefix.

Java's `null` becomes `Wrappers.Option` in two places: the absent result of the lookup accessor,
and an absent domain layer location. A thrown `IllegalArgumentException` becomes
`Wrappers.Result.Failure`.

The comment at `PhpPackageMetadataNamer.java:32-33` says an override gives
"domainLayerLocation/serviceName". The code at line 35 instead passes the raw, unstripped
`packageName` to `formatComposerPackageName`, and never fails. The model follows the code.

## Model

| member | source | states |
|---|---|---|
| `ResourceNames.GetFullyQualifiedMessageName` | src/main/java/com/google/api/codegen/config/ResourceNameMessageConfig.java:71-77 | A name that already contains `.` is returned unchanged; otherwise the result is `defaultPackage + "." + name`. Either way the result contains `.` and ends with the original name |
| `ResourceNames.QualifyIdempotent` | src/main/java/com/google/api/codegen/config/ResourceNameMessageConfig.java:71-77 | Qualifying an already qualified name gives the same name |
| `ResourceNames.CreateResourceNameMessageConfig` | src/main/java/com/google/api/codegen/config/ResourceNameMessageConfig.java:39-47 | The explicit-config path copies the field-to-entity map verbatim and stores the qualified message name (the name itself if it is dotted, else prefixed with the default package) |
| `ResourceNames.CreateFromAnnotationsOnMessage` | src/main/java/com/google/api/codegen/config/ResourceNameMessageConfig.java:49-69 | Succeeds exactly when every annotation's resolved type (`type`, else `childType`) is registered. On success the result is the message's own full name with the map of the annotated fields. On failure the error names the type of the first bad annotation and carries the registry's key set |
| `ResourceNames.EntityMapKeys` | src/main/java/com/google/api/codegen/config/ResourceNameMessageConfig.java:54-66 | The built map's keys are exactly the simple names of the annotated fields |
| `ResourceNames.EntityMapValues` | src/main/java/com/google/api/codegen/config/ResourceNameMessageConfig.java:54-66 | Each value is the derived entity name of the last annotated field with that key, so each value is some registered descriptor's entity name |
| `ResourceNames.EntityMapDistinctNames` | src/main/java/com/google/api/codegen/config/ResourceNameMessageConfig.java:54-68 | When simple names are distinct, every annotated field maps to its own descriptor's entity name and no unannotated field is a key |
| `ResourceNames.EntityNameToName` | src/main/java/com/google/api/codegen/config/ResourceNameMessageConfig.java:81-87 | The snake parser `Name.from` gets the string iff it contains `_`; otherwise `Name.anyCamel` gets it |
| `ResourceNames.GetEntityNameForField` | src/main/java/com/google/api/codegen/config/ResourceNameMessageConfig.java:89-91 | Returns the mapped entity name for a mapped field and None (Java's null) for any other field |
| `ResourceNames.AnnotationConfigLookup` | src/main/java/com/google/api/codegen/config/ResourceNameMessageConfig.java:89-91 | On a config built from annotations, looking up an annotated field gives its descriptor's entity name, and looking up an unannotated field gives None |
| `StringUtil.IndexOf` | src/main/java/com/google/api/codegen/transformer/php/PhpPackageMetadataNamer.java:42 | Returns -1 iff the separator does not occur; otherwise returns an index where it occurs with no earlier occurrence |
| `StringUtil.RemovePrefix` | src/main/java/com/google/api/codegen/transformer/php/PhpPackageMetadataNamer.java:39-40 | Drops exactly one leading separator when there is one; otherwise returns the name unchanged |
| `PhpMetadataNaming.ComposerVendorAndProject` | src/main/java/com/google/api/codegen/transformer/php/PhpPackageMetadataNamer.java:39-52 | After one leading separator is dropped: a name with no separator is both vendor and project. Otherwise `vendor + SEP + project` rebuilds the normalized name, no separator starts inside the vendor, and the project may hold more separators |
| `PhpMetadataNaming.VendorHasNoSeparator` | src/main/java/com/google/api/codegen/transformer/php/PhpPackageMetadataNamer.java:47-48 | With a non-empty separator, the vendor contains no separator |
| `PhpMetadataNaming.ComposerSplitUnique` | src/main/java/com/google/api/codegen/transformer/php/PhpPackageMetadataNamer.java:42-52 | Any decomposition `vendor + SEP + project` of the normalized name in which no separator starts inside the vendor is the one chosen, so the split is the first-separator split |
| `PhpMetadataNaming.NullAndEmptyLocationAgree` | src/main/java/com/google/api/codegen/transformer/php/PhpPackageMetadataNamer.java:31-36 | A null domain layer location and an empty one give the same identifier |
| `PhpMetadataNaming.PhpPackageMetadataNamer.constructor` | src/main/java/com/google/api/codegen/transformer/php/PhpPackageMetadataNamer.java:27-55 | The service name is `upperCamel(splitPackageName(getPackageNameBeforeVersion(packageName)))`. With a domain layer location, the identifier is `format(location, packageName)` on the unstripped name. Otherwise it is `format(vendor, project)` of the first-separator split |
| `PhpMetadataNaming.PhpPackageMetadataNamer.GetMetadataName` | src/main/java/com/google/api/codegen/transformer/php/PhpPackageMetadataNamer.java:57-60 | Returns the upper-camel rendering of the name built from the version-free, split package name |
| `PhpMetadataNaming.PhpPackageMetadataNamer.GetMetadataIdentifier` | src/main/java/com/google/api/codegen/transformer/php/PhpPackageMetadataNamer.java:62-65 | Returns exactly the identifier fixed at construction from the package name and the domain layer location |
| `PhpHttpStub.CheckAndAddOptionView` | src/main/java/com/google/api/codegen/transformer/php/PhpPackageHttpStubTransformer.java:154-158 | Appends one view `(key, value)` iff the value is non-empty; existing views stay as they were |
| `PhpHttpStub.AddBindingOptionView` | src/main/java/com/google/api/codegen/transformer/php/PhpPackageHttpStubTransformer.java:145-152 | Appends the non-empty views of get, put, post, delete and patch, in that order, after the existing views |
| `PhpHttpStub.GenerateHttpOptionViews` | src/main/java/com/google/api/codegen/transformer/php/PhpPackageHttpStubTransformer.java:125-143 | The list built by the loop equals the views of the option fields in iteration order: each `google.api.http` option contributes its binding views, then its body view |
| `PhpHttpStub.RuleOptionViewsOrdered` | src/main/java/com/google/api/codegen/transformer/php/PhpPackageHttpStubTransformer.java:133-150 | One rule contributes at most six views, ordered get, put, post, delete, patch, body, with no key repeated |
| `PhpHttpStub.RuleOptionViewsCarryRuleFields` | src/main/java/com/google/api/codegen/transformer/php/PhpPackageHttpStubTransformer.java:145-158 | Each view of a rule has a binding key and the non-empty value of the rule field that key names, verbatim |
| `PhpHttpStub.RuleOptionViewsComplete` | src/main/java/com/google/api/codegen/transformer/php/PhpPackageHttpStubTransformer.java:154-158 | For each binding key, the view `(key, field)` is present iff that field is non-empty |
| `PhpHttpStub.OptionViewsOfConcat` | src/main/java/com/google/api/codegen/transformer/php/PhpPackageHttpStubTransformer.java:128-142 | The views of concatenated option lists are the concatenation of their views |
| `PhpHttpStub.OnlyHttpOptionsContribute` | src/main/java/com/google/api/codegen/transformer/php/PhpPackageHttpStubTransformer.java:128-129 | Dropping every option whose full name is not `google.api.http` leaves the views unchanged, and there are at most six views per `google.api.http` option |
| `PhpHttpStub.OptionViewsWellFormed` | src/main/java/com/google/api/codegen/transformer/php/PhpPackageHttpStubTransformer.java:146-156 | Every emitted view has one of the six binding keys and a non-empty value |
| `PhpHttpStub.AdditionalBindingsIgnored` | src/main/java/com/google/api/codegen/transformer/php/PhpPackageHttpStubTransformer.java:135-138 | Removing every rule's additional bindings leaves the views unchanged |

## Left out

- `Name`, `PhpPackageUtil` and `ProtoParser` are not part of this model. Their tokenisers, the separator's concrete value, version detection and Composer lowercasing are passed-in function values, and nothing is claimed about them.
- StringUtil.RemovePrefix: its body is assumed from its name and its call site, since `StringUtil.java` is not part of this model.
- `PhpMetadataNaming.GetApiNameFromPackageName` states no property of its own. It only composes three external helpers, and the namer's constructor and `GetMetadataName` state which argument reaches which helper.
- `ProtoParser.hasResourceReference` / `getResourceReference` are modelled by the field's optional `ResourceReference`.
- `ResourceNames.CreateFromAnnotationsOnMessage`: Guava's `ImmutableMap.Builder` throws on a repeated key. The model's map keeps the last put instead. Protobuf message fields have distinct simple names, and `EntityMapDistinctNames` covers that case.
- The error text's ordering of known keys, which depends on the Java map: the error carries the type and the key set, not the formatted string.
- Java null semantics apart from the explicit null check on the domain layer location. Null package names, null rule fields and a null map lookup's use are not modelled.
- `PhpHttpStub.GenerateHttpOptionViews` requires every `google.api.http` option to hold an `HttpRule`, as the Java cast does. The `ClassCastException` for other values is not modelled (protobuf guarantees the type).
- The iteration order of `getOptionFields().keySet()`: the model takes the option fields as a sequence in that order.
- `PhpPackageHttpStubTransformer`'s `transform`, `generateHttpStubView`, `addHttpStubImports`, output paths and file headers: type-table and template plumbing.
- `PhpPackageMetadataTransformer.java`, which assembles view models and output paths for templates, and `generate_clients.py`, which invokes processes and does file I/O.
