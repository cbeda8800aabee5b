/**
 * The HTTP option views of PhpPackageHttpStubTransformer: for every google.api.http
 * option of a method, one key/value view per non-empty binding, in a fixed order.
 */
module PhpHttpStub {

  /** The full name of the option field that carries the HTTP rule. */
  const HttpOptionName: string := "google.api.http"

  /** The keys of the views, in the order they are emitted. */
  const BindingKeys: seq<string> := ["get", "put", "post", "delete", "patch", "body"]

  /** The google.api.HttpRule fields the transformer reads. */
  datatype HttpRule = HttpRule(
    get: string, put: string, post: string, delete: string, patch: string, body: string,
    additionalBindings: seq<HttpRule>)

  /** The value of a method option: an HttpRule, or a value of some other option. */
  datatype OptionValue = HttpRuleValue(rule: HttpRule) | OtherValue

  /** An option field of a method: its full name and its value. */
  datatype OptionField = OptionField(fullName: string, value: OptionValue)

  datatype HttpOptionView = HttpOptionView(key: string, value: string)

  /** Java's `(HttpRule)` cast in generateHttpOptionViews succeeds on this field. */
  predicate CastSucceeds(field: OptionField)
  {
    field.fullName == HttpOptionName ==> field.value.HttpRuleValue?
  }

  /** The rule field a key names ("" for other keys). */
  function RuleValue(rule: HttpRule, key: string): string
  {
    if key == "get" then rule.get
    else if key == "put" then rule.put
    else if key == "post" then rule.post
    else if key == "delete" then rule.delete
    else if key == "patch" then rule.patch
    else if key == "body" then rule.body
    else ""
  }

  /** The position of a key in BindingKeys (|BindingKeys| for other keys). */
  function KeyRank(key: string): (r: nat)
    ensures key in BindingKeys ==> r < |BindingKeys| && BindingKeys[r] == key
    ensures key !in BindingKeys ==> r == |BindingKeys|
  {
    if key == "get" then 0
    else if key == "put" then 1
    else if key == "post" then 2
    else if key == "delete" then 3
    else if key == "patch" then 4
    else if key == "body" then 5
    else 6
  }

  /** The views checkAndAddOptionView appends: one for a non-empty value, none otherwise. */
  function OptionView(key: string, value: string): seq<HttpOptionView>
  {
    if value == "" then [] else [HttpOptionView(key, value)]
  }

  /** The views addBindingOptionView appends for the five verbs. */
  function BindingOptionViews(rule: HttpRule): seq<HttpOptionView>
  {
    OptionView("get", rule.get) + OptionView("put", rule.put) + OptionView("post", rule.post) +
    OptionView("delete", rule.delete) + OptionView("patch", rule.patch)
  }

  /** The views one google.api.http option contributes: the verbs, then the body. */
  function RuleOptionViews(rule: HttpRule): seq<HttpOptionView>
  {
    BindingOptionViews(rule) + OptionView("body", rule.body)
  }

  /** The views one option field contributes: a google.api.http rule's views, or none. */
  function Contribution(field: OptionField): seq<HttpOptionView>
  {
    if field.fullName == HttpOptionName && field.value.HttpRuleValue? then RuleOptionViews(field.value.rule) else []
  }

  /** The views of a sequence of option fields, in iteration order. */
  function OptionViewsOf(fields: seq<OptionField>): seq<HttpOptionView>
  {
    if fields == [] then []
    else OptionViewsOf(fields[..|fields| - 1]) + Contribution(fields[|fields| - 1])
  }

  /** Keys strictly follow the order of BindingKeys. */
  predicate InBindingOrder(views: seq<HttpOptionView>)
  {
    forall i, j :: 0 <= i < j < |views| ==> KeyRank(views[i].key) < KeyRank(views[j].key)
  }

  predicate RanksBelow(views: seq<HttpOptionView>, bound: nat)
  {
    forall i :: 0 <= i < |views| ==> KeyRank(views[i].key) < bound
  }

  lemma AppendInOrder(views: seq<HttpOptionView>, key: string, value: string)
    requires key in BindingKeys
    requires InBindingOrder(views) && RanksBelow(views, KeyRank(key))
    ensures InBindingOrder(views + OptionView(key, value))
    ensures RanksBelow(views + OptionView(key, value), KeyRank(key) + 1)
  {
  }

  /** Every view names a binding key, and carries that rule field, which is non-empty. */
  predicate CarriesRuleFields(views: seq<HttpOptionView>, rule: HttpRule)
  {
    forall i :: 0 <= i < |views| ==>
      views[i].key in BindingKeys && views[i].value != "" && views[i].value == RuleValue(rule, views[i].key)
  }

  lemma AppendCarriesRuleFields(views: seq<HttpOptionView>, rule: HttpRule, key: string, value: string)
    requires key in BindingKeys && value == RuleValue(rule, key) && CarriesRuleFields(views, rule)
    ensures CarriesRuleFields(views + OptionView(key, value), rule)
  {
  }

  /**
   * One rule's views are at most six and follow the order get, put, post, delete, patch,
   * body, so no key appears twice.
   */
  lemma RuleOptionViewsOrdered(rule: HttpRule)
    ensures |RuleOptionViews(rule)| <= |BindingKeys|
    ensures InBindingOrder(RuleOptionViews(rule))
    ensures forall i, j :: 0 <= i < j < |RuleOptionViews(rule)| ==>
      RuleOptionViews(rule)[i].key != RuleOptionViews(rule)[j].key
  {
    AppendInOrder([], "get", rule.get);
    assert [] + OptionView("get", rule.get) == OptionView("get", rule.get);
    var v1 := OptionView("get", rule.get);
    AppendInOrder(v1, "put", rule.put);
    var v2 := v1 + OptionView("put", rule.put);
    AppendInOrder(v2, "post", rule.post);
    var v3 := v2 + OptionView("post", rule.post);
    AppendInOrder(v3, "delete", rule.delete);
    var v4 := v3 + OptionView("delete", rule.delete);
    AppendInOrder(v4, "patch", rule.patch);
    var v5 := v4 + OptionView("patch", rule.patch);
    AppendInOrder(v5, "body", rule.body);
    assert v5 == BindingOptionViews(rule);
  }

  /** Each view of a rule carries the non-empty rule field its key names, verbatim. */
  lemma RuleOptionViewsCarryRuleFields(rule: HttpRule)
    ensures CarriesRuleFields(RuleOptionViews(rule), rule)
  {
    AppendCarriesRuleFields([], rule, "get", rule.get);
    assert [] + OptionView("get", rule.get) == OptionView("get", rule.get);
    var v1 := OptionView("get", rule.get);
    AppendCarriesRuleFields(v1, rule, "put", rule.put);
    var v2 := v1 + OptionView("put", rule.put);
    AppendCarriesRuleFields(v2, rule, "post", rule.post);
    var v3 := v2 + OptionView("post", rule.post);
    AppendCarriesRuleFields(v3, rule, "delete", rule.delete);
    var v4 := v3 + OptionView("delete", rule.delete);
    AppendCarriesRuleFields(v4, rule, "patch", rule.patch);
    var v5 := v4 + OptionView("patch", rule.patch);
    AppendCarriesRuleFields(v5, rule, "body", rule.body);
    assert v5 == BindingOptionViews(rule);
  }

  /** A rule has a view `(key, field)` exactly when the field that key names is non-empty. */
  lemma RuleOptionViewsComplete(rule: HttpRule)
    ensures forall k :: k in BindingKeys ==>
      (HttpOptionView(k, RuleValue(rule, k)) in RuleOptionViews(rule) <==> RuleValue(rule, k) != "")
  {
    RuleOptionViewsCarryRuleFields(rule);
    var views := RuleOptionViews(rule);
    forall k | k in BindingKeys && RuleValue(rule, k) != ""
      ensures HttpOptionView(k, RuleValue(rule, k)) in views
    {
      var a := OptionView("get", rule.get);
      var b := OptionView("put", rule.put);
      var c := OptionView("post", rule.post);
      var d := OptionView("delete", rule.delete);
      var e := OptionView("patch", rule.patch);
      var f := OptionView("body", rule.body);
      assert views == a + b + c + d + e + f;
      var x := HttpOptionView(k, RuleValue(rule, k));
      if k == "get" { assert x in a; }
      else if k == "put" { assert x in b; }
      else if k == "post" { assert x in c; }
      else if k == "delete" { assert x in d; }
      else if k == "patch" { assert x in e; }
      else { assert x in f; }
    }
  }

  /** The views of a concatenation of option lists are the concatenated views. */
  lemma {:induction false} OptionViewsOfConcat(a: seq<OptionField>, b: seq<OptionField>)
    ensures OptionViewsOf(a + b) == OptionViewsOf(a) + OptionViewsOf(b)
    decreases |b|
  {
    if b == [] {
      assert a + b == a;
    } else {
      var b' := b[..|b| - 1];
      DropLastOfConcat(a, b);
      OptionViewsOfConcat(a, b');
      AppendAssociates(OptionViewsOf(a), OptionViewsOf(b'), Contribution(b[|b| - 1]));
    }
  }

  lemma DropLastOfConcat<T>(a: seq<T>, b: seq<T>)
    requires b != []
    ensures (a + b)[..|a + b| - 1] == a + b[..|b| - 1]
    ensures (a + b)[|a + b| - 1] == b[|b| - 1]
  {
  }

  lemma AppendAssociates<T>(x: seq<T>, y: seq<T>, z: seq<T>)
    ensures x + y + z == x + (y + z)
  {
  }

  /** The option fields whose full name is google.api.http. */
  function HttpOptionFields(fields: seq<OptionField>): (r: seq<OptionField>)
    ensures forall f :: f in r ==> f in fields && f.fullName == HttpOptionName
  {
    if fields == [] then []
    else
      var rest := HttpOptionFields(fields[..|fields| - 1]);
      if fields[|fields| - 1].fullName == HttpOptionName then rest + [fields[|fields| - 1]] else rest
  }

  /** Only google.api.http fields contribute, and each contributes at most six views. */
  lemma {:induction false} OnlyHttpOptionsContribute(fields: seq<OptionField>)
    ensures OptionViewsOf(fields) == OptionViewsOf(HttpOptionFields(fields))
    ensures |OptionViewsOf(fields)| <= |BindingKeys| * |HttpOptionFields(fields)|
  {
    if fields != [] {
      var prefix := fields[..|fields| - 1];
      var last := fields[|fields| - 1];
      OnlyHttpOptionsContribute(prefix);
      if last.fullName == HttpOptionName {
        OptionViewsOfConcat(HttpOptionFields(prefix), [last]);
        assert [last][..0] == [];
        if last.value.HttpRuleValue? {
          RuleOptionViewsOrdered(last.value.rule);
        }
      }
    }
  }

  /** Every emitted view has a binding key and a non-empty value. */
  lemma {:induction false} OptionViewsWellFormed(fields: seq<OptionField>)
    ensures forall v :: v in OptionViewsOf(fields) ==> v.key in BindingKeys && v.value != ""
  {
    if fields != [] {
      var last := fields[|fields| - 1];
      OptionViewsWellFormed(fields[..|fields| - 1]);
      if last.fullName == HttpOptionName && last.value.HttpRuleValue? {
        RuleOptionViewsCarryRuleFields(last.value.rule);
      }
      assert OptionViewsOf(fields) == OptionViewsOf(fields[..|fields| - 1]) + Contribution(last);
    }
  }

  /** The same fields with every HTTP rule stripped of its additional bindings. */
  function WithoutAdditionalBindings(fields: seq<OptionField>): (r: seq<OptionField>)
    ensures |r| == |fields|
  {
    if fields == [] then []
    else
      var f := fields[|fields| - 1];
      var f' := if f.value.HttpRuleValue? then f.(value := HttpRuleValue(f.value.rule.(additionalBindings := []))) else f;
      WithoutAdditionalBindings(fields[..|fields| - 1]) + [f']
  }

  /** Additional bindings contribute nothing. */
  lemma {:induction false} AdditionalBindingsIgnored(fields: seq<OptionField>)
    ensures OptionViewsOf(WithoutAdditionalBindings(fields)) == OptionViewsOf(fields)
  {
    if fields != [] {
      var r := WithoutAdditionalBindings(fields);
      assert r[..|r| - 1] == WithoutAdditionalBindings(fields[..|fields| - 1]);
      AdditionalBindingsIgnored(fields[..|fields| - 1]);
    }
  }

  lemma SixAppendsAssociate<T>(v: seq<T>, a: seq<T>, b: seq<T>, c: seq<T>, d: seq<T>, e: seq<T>)
    ensures v + a + b + c + d + e == v + (a + b + c + d + e)
  {
  }

  /** The shared, growing List<HttpOptionView>. */
  class HttpOptionViewList {
    var views: seq<HttpOptionView>

    constructor ()
      ensures views == []
    {
      views := [];
    }
  }

  /** checkAndAddOptionView: append `(key, value)` iff `value` is non-empty; keep the rest. */
  method CheckAndAddOptionView(optionViews: HttpOptionViewList, key: string, value: string)
    modifies optionViews
    ensures value != "" ==> optionViews.views == old(optionViews.views) + [HttpOptionView(key, value)]
    ensures value == "" ==> optionViews.views == old(optionViews.views)
  {
    if value != "" {
      optionViews.views := optionViews.views + [HttpOptionView(key, value)];
    }
  }

  /** addBindingOptionView: the views of get, put, post, delete and patch, in that order. */
  method AddBindingOptionView(optionViews: HttpOptionViewList, optionValue: HttpRule)
    modifies optionViews
    ensures optionViews.views == old(optionViews.views) + BindingOptionViews(optionValue)
  {
    ghost var before := optionViews.views;
    CheckAndAddOptionView(optionViews, "get", optionValue.get);
    assert optionViews.views == before + OptionView("get", optionValue.get);
    CheckAndAddOptionView(optionViews, "put", optionValue.put);
    assert optionViews.views == before + OptionView("get", optionValue.get) + OptionView("put", optionValue.put);
    CheckAndAddOptionView(optionViews, "post", optionValue.post);
    CheckAndAddOptionView(optionViews, "delete", optionValue.delete);
    CheckAndAddOptionView(optionViews, "patch", optionValue.patch);
    SixAppendsAssociate(before, OptionView("get", optionValue.get), OptionView("put", optionValue.put),
      OptionView("post", optionValue.post), OptionView("delete", optionValue.delete), OptionView("patch", optionValue.patch));
  }

  /** generateHttpOptionViews: the views of every google.api.http option, in iteration order. */
  method GenerateHttpOptionViews(optionFields: seq<OptionField>) returns (views: seq<HttpOptionView>)
    requires forall f :: f in optionFields ==> CastSucceeds(f)
    ensures views == OptionViewsOf(optionFields)
  {
    var optionViews := new HttpOptionViewList();
    var i := 0;
    while i < |optionFields|
      invariant 0 <= i <= |optionFields|
      invariant optionViews.views == OptionViewsOf(optionFields[..i])
    {
      var fieldDescriptor := optionFields[i];
      assert optionFields[..i + 1][..i] == optionFields[..i];
      ghost var before := optionViews.views;
      if fieldDescriptor.fullName == HttpOptionName {
        assert CastSucceeds(fieldDescriptor);
        var optionValue := fieldDescriptor.value.rule;
        AddBindingOptionView(optionViews, optionValue);
        CheckAndAddOptionView(optionViews, "body", optionValue.body);
        AppendAssociates(before, BindingOptionViews(optionValue), OptionView("body", optionValue.body));
      } else {
        assert before + Contribution(fieldDescriptor) == before;
      }
      assert optionViews.views == before + Contribution(fieldDescriptor);
      i := i + 1;
    }
    assert optionFields[..i] == optionFields;
    views := optionViews.views;
  }
}
