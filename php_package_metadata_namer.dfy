/**
 * PhpPackageMetadataNamer: the Composer `vendor/project` identifier and the
 * service name of a PHP package.
 */
module PhpMetadataNaming {
  import opened Wrappers
  import opened Names
  import opened StringUtil

  /**
   * The PhpPackageUtil members the namer calls. Their bodies are not part of this
   * model; only the separator's being a string is used, never its value.
   */
  datatype PhpPackageUtil = PhpPackageUtil(
    packageSeparator: string,                              // PACKAGE_SEPARATOR
    formatComposerPackageName: (string, string) -> string, // vendor, project -> identifier
    splitPackageName: string -> seq<string>,
    getPackageNameBeforeVersion: string -> string)

  /** A domain layer location that is neither null (None) nor the empty string. */
  predicate HasDomainLayerLocation(domainLayerLocation: Option<string>)
  {
    domainLayerLocation.Some? && domainLayerLocation.value != ""
  }

  /**
   * The vendor and project taken from a package name when no domain layer location is
   * given: drop one leading separator, then split at the first remaining separator; a
   * name without a separator is both vendor and project.
   */
  function ComposerVendorAndProject(separator: string, packageName: string): (r: (string, string))
    ensures var normalized := RemovePrefix(packageName, separator);
      && (!Contains(normalized, separator) ==> r == (normalized, normalized))
      && (Contains(normalized, separator) ==>
            r.0 + separator + r.1 == normalized &&
            forall i :: 0 <= i < |r.0| ==> !OccursAt(normalized, separator, i))
  {
    var normalized := RemovePrefix(packageName, separator);
    var first := IndexOf(normalized, separator);
    if first == -1 then (normalized, normalized)
    else
      var vendor := normalized[..first];
      var project := normalized[first + |separator|..];
      assert normalized == vendor + normalized[first..first + |separator|] + project;
      (vendor, project)
  }

  /** With a non-empty separator, the vendor holds no separator. */
  lemma VendorHasNoSeparator(separator: string, packageName: string)
    requires separator != ""
    ensures !Contains(ComposerVendorAndProject(separator, packageName).0, separator)
  {
    var normalized := RemovePrefix(packageName, separator);
    var vendor := ComposerVendorAndProject(separator, packageName).0;
    if Contains(vendor, separator) {
      var i :| 0 <= i <= |vendor| && OccursAt(vendor, separator, i);
      if Contains(normalized, separator) {
        assert normalized[..|vendor|] == vendor;
        assert normalized[i..i + |separator|] == vendor[i..i + |separator|];
        assert OccursAt(normalized, separator, i);
      }
      // Otherwise the vendor is the whole normalized name, which holds no separator.
    }
  }

  /**
   * The split is the only decomposition `vendor + SEP + project` of the normalized name in
   * which no separator starts inside the vendor.
   */
  lemma ComposerSplitUnique(separator: string, packageName: string, vendor: string, project: string)
    requires vendor + separator + project == RemovePrefix(packageName, separator)
    requires forall i :: 0 <= i < |vendor| ==> !OccursAt(RemovePrefix(packageName, separator), separator, i)
    ensures ComposerVendorAndProject(separator, packageName) == (vendor, project)
  {
    var normalized := RemovePrefix(packageName, separator);
    assert OccursAt(normalized, separator, |vendor|) by {
      assert normalized[|vendor|..|vendor| + |separator|] == separator;
    }
    assert Contains(normalized, separator);
    var r := ComposerVendorAndProject(separator, packageName);
    var first := IndexOf(normalized, separator);
    assert |r.0| == first;
    assert first == |vendor|;
    assert r.0 == normalized[..|vendor|] == vendor;
    assert r.1 == normalized[|vendor| + |separator|..] == project;
  }

  /** The metadata identifier the constructor stores. */
  function MetadataIdentifier(util: PhpPackageUtil, packageName: string, domainLayerLocation: Option<string>): string
  {
    if HasDomainLayerLocation(domainLayerLocation) then
      util.formatComposerPackageName(domainLayerLocation.value, packageName)
    else
      var parts := ComposerVendorAndProject(util.packageSeparator, packageName);
      util.formatComposerPackageName(parts.0, parts.1)
  }

  /** A null and an empty domain layer location lead to the same identifier. */
  lemma NullAndEmptyLocationAgree(util: PhpPackageUtil, packageName: string)
    ensures MetadataIdentifier(util, packageName, None) == MetadataIdentifier(util, packageName, Some(""))
  {
  }

  /** getApiNameFromPackageName: the upper-camel name of the split, version-free package name. */
  function GetApiNameFromPackageName(parsers: NameParsers, util: PhpPackageUtil, packageName: string): Name
  {
    parsers.upperCamel(util.splitPackageName(util.getPackageNameBeforeVersion(packageName)))
  }

  /** The namer: both names are fixed at construction and only read afterwards. */
  class PhpPackageMetadataNamer {
    ghost const packageName: string
    ghost const domainLayerLocation: Option<string>
    ghost const util: PhpPackageUtil
    const parsers: NameParsers
    const serviceName: Name
    const metadataIdentifier: string

    /** The stored names are those derived from the constructor's arguments. */
    ghost predicate Valid()
    {
      && serviceName == GetApiNameFromPackageName(parsers, util, packageName)
      && metadataIdentifier == MetadataIdentifier(util, packageName, domainLayerLocation)
    }

    constructor (parsers: NameParsers, util: PhpPackageUtil, packageName: string, domainLayerLocation: Option<string>)
      ensures this.packageName == packageName && this.domainLayerLocation == domainLayerLocation
      ensures this.util == util && this.parsers == parsers && Valid()
      ensures serviceName == GetApiNameFromPackageName(parsers, util, packageName)
      ensures HasDomainLayerLocation(domainLayerLocation) ==>
                metadataIdentifier == util.formatComposerPackageName(domainLayerLocation.value, packageName)
      ensures !HasDomainLayerLocation(domainLayerLocation) ==>
                var parts := ComposerVendorAndProject(util.packageSeparator, packageName);
                metadataIdentifier == util.formatComposerPackageName(parts.0, parts.1)
    {
      this.packageName := packageName;
      this.domainLayerLocation := domainLayerLocation;
      this.util := util;
      this.parsers := parsers;
      serviceName := GetApiNameFromPackageName(parsers, util, packageName);
      if domainLayerLocation.Some? && domainLayerLocation.value != "" {
        metadataIdentifier := util.formatComposerPackageName(domainLayerLocation.value, packageName);
      } else {
        var separator := util.packageSeparator;
        var normalizedPackageName := RemovePrefix(packageName, separator);
        var firstSeparatorIndex := IndexOf(normalizedPackageName, separator);
        if firstSeparatorIndex == -1 {
          metadataIdentifier := util.formatComposerPackageName(normalizedPackageName, normalizedPackageName);
        } else {
          var vendor := normalizedPackageName[..firstSeparatorIndex];
          var project := normalizedPackageName[firstSeparatorIndex + |separator|..];
          metadataIdentifier := util.formatComposerPackageName(vendor, project);
        }
      }
    }

    /** getMetadataName: the upper-camel rendering of the service name. */
    function GetMetadataName(): (r: string)
      requires Valid()
      ensures r == parsers.toUpperCamel(GetApiNameFromPackageName(parsers, util, packageName))
    {
      parsers.toUpperCamel(serviceName)
    }

    /** getMetadataIdentifier: the identifier fixed at construction. */
    function GetMetadataIdentifier(): (r: string)
      requires Valid()
      ensures r == MetadataIdentifier(util, packageName, domainLayerLocation)
    {
      metadataIdentifier
    }
  }
}
