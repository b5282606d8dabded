/** What a metadata build produces: one record per registered name, one
    child per enum member keyed by its value, each child carrying exactly
    the translations of its code, and, after the defaults are filled, at
    least one translation per language. */
module MetadataProperties {
  import opened Common
  import opened Metadata

  /** No two members of an enum share a value. */
  ghost predicate DistinctValues(members: seq<EnumMember>) {
    forall i, j :: 0 <= i < j < |members| ==> members[i].value != members[j].value
  }

  /** No name is registered twice. */
  ghost predicate DistinctNames(registry: seq<(string, EnumType)>) {
    forall i, j :: 0 <= i < j < |registry| ==> registry[i].0 != registry[j].0
  }

  /** An enum's record succeeds exactly when its member values are
      distinct: a repeated value is a repeated child key. */
  lemma {:induction false} RecordOutcomeSucceeds(t: EnumType, members: seq<EnumMember>, translations: seq<Translation>)
    ensures RecordOutcome(t, members, translations).Success? <==> DistinctValues(members)
  {
    if members != [] {
      var n := |members| - 1;
      var init := members[..n];
      var m := members[n];
      RecordOutcomeSucceeds(t, init, translations);
      var prev := RecordOutcome(t, init, translations);
      assert forall i :: 0 <= i < n ==> init[i] == members[i];
      if prev.Success? {
        RecordOutcomeKeys(t, init, translations);
        if DistinctValues(members) {
          forall i | 0 <= i < n ensures MemberValue(init[i]) != MemberValue(m) {
            IntToStringInjective(members[i].value, m.value);
          }
        } else {
          var i, j :| 0 <= i < j < |members| && members[i].value == members[j].value;
          assert j == n && MemberValue(init[i]) == MemberValue(m);
        }
      }
    }
  }

  /** Every child key of an enum's record is the value of one of its
      members. */
  lemma {:induction false} RecordOutcomeKeys(t: EnumType, members: seq<EnumMember>, translations: seq<Translation>)
    requires RecordOutcome(t, members, translations).Success?
    ensures forall v :: v in RecordOutcome(t, members, translations).value.children <==> exists i :: 0 <= i < |members| && MemberValue(members[i]) == v
  {
    if members != [] {
      var n := |members| - 1;
      var init := members[..n];
      var m := members[n];
      var prev := RecordOutcome(t, init, translations);
      RecordOutcomeKeys(t, init, translations);
      var children := RecordOutcome(t, members, translations).value.children;
      assert children == prev.value.children[MemberValue(m) := Child(t, m, translations)];
      forall v ensures v in children <==> exists i :: 0 <= i < |members| && MemberValue(members[i]) == v {
        if v in prev.value.children {
          var i :| 0 <= i < n && MemberValue(init[i]) == v;
          assert MemberValue(members[i]) == v;
        } else if v == MemberValue(m) {
          assert MemberValue(members[n]) == v;
        } else {
          forall i | 0 <= i < |members| ensures MemberValue(members[i]) != v {
            if i < n {
              assert init[i] == members[i];
            }
          }
        }
      }
    }
  }

  /** The record of an enum has no translations of its own, and the child
      under each member's value holds the translations of that member's
      code. */
  lemma {:induction false} RecordOutcomeChildren(t: EnumType, members: seq<EnumMember>, translations: seq<Translation>)
    requires RecordOutcome(t, members, translations).Success?
    ensures RecordOutcome(t, members, translations).value.translations == []
    ensures forall i :: 0 <= i < |members| ==>
      && MemberValue(members[i]) in RecordOutcome(t, members, translations).value.children
      && RecordOutcome(t, members, translations).value.children[MemberValue(members[i])] == Child(t, members[i], translations)
  {
    if members != [] {
      var n := |members| - 1;
      var init := members[..n];
      var m := members[n];
      var prev := RecordOutcome(t, init, translations);
      RecordOutcomeChildren(t, init, translations);
      var children := RecordOutcome(t, members, translations).value.children;
      assert MemberValue(m) !in prev.value.children;
      assert children == prev.value.children[MemberValue(m) := Child(t, m, translations)];
      forall i | 0 <= i < |members|
        ensures MemberValue(members[i]) in children && children[MemberValue(members[i])] == Child(t, members[i], translations)
      {
        if i < n {
          assert members[i] == init[i];
          assert MemberValue(init[i]) in prev.value.children;
        }
      }
    }
  }

  /** The content succeeds exactly when the names are distinct and every
      enum's record succeeds, and it then has exactly the registered names
      as keys. */
  lemma {:induction false} ContentOutcomeSucceeds(registry: seq<(string, EnumType)>, translations: seq<Translation>)
    ensures ContentOutcome(registry, translations).Success? <==>
      DistinctNames(registry) && forall i :: 0 <= i < |registry| ==> RecordOutcome(registry[i].1, registry[i].1.members, translations).Success?
    ensures ContentOutcome(registry, translations).Success? ==>
      forall name :: name in ContentOutcome(registry, translations).value <==> exists i :: 0 <= i < |registry| && registry[i].0 == name
  {
    if registry != [] {
      var n := |registry| - 1;
      var init := registry[..n];
      ContentOutcomeSucceeds(init, translations);
      var prev := ContentOutcome(init, translations);
      var entry := registry[n];
      var record := RecordOutcome(entry.1, entry.1.members, translations);
      assert forall i :: 0 <= i < n ==> init[i] == registry[i];
      if prev.Success? && record.Success? {
        ContentOutcomeKeys(init, translations);
        if DistinctNames(registry) {
          assert entry.0 !in prev.value;
          ContentOutcomeKeys(registry, translations);
        } else if DistinctNames(init) {
          var i, j :| 0 <= i < j < |registry| && registry[i].0 == registry[j].0;
          assert j == n;
          assert registry[i].0 in prev.value;
        }
      }
    }
  }

  lemma {:induction false} ContentOutcomeKeys(registry: seq<(string, EnumType)>, translations: seq<Translation>)
    requires ContentOutcome(registry, translations).Success?
    ensures forall name :: name in ContentOutcome(registry, translations).value <==> exists i :: 0 <= i < |registry| && registry[i].0 == name
  {
    if registry != [] {
      var n := |registry| - 1;
      var init := registry[..n];
      var prev := ContentOutcome(init, translations);
      var entry := registry[n];
      var record := RecordOutcome(entry.1, entry.1.members, translations);
      ContentOutcomeKeys(init, translations);
      var content := ContentOutcome(registry, translations).value;
      assert content == prev.value[entry.0 := record.value];
      forall name ensures name in content <==> exists i :: 0 <= i < |registry| && registry[i].0 == name {
        if name in prev.value {
          var i :| 0 <= i < n && init[i].0 == name;
          assert registry[i].0 == name;
        } else if name == entry.0 {
          assert registry[n].0 == name;
        } else {
          forall i | 0 <= i < |registry| ensures registry[i].0 != name {
            if i < n {
              assert init[i] == registry[i];
            }
          }
        }
      }
    }
  }

  /** Each registered name maps to the record of its enum. */
  lemma {:induction false} ContentOutcomeRecords(registry: seq<(string, EnumType)>, translations: seq<Translation>)
    requires ContentOutcome(registry, translations).Success?
    ensures forall i :: 0 <= i < |registry| ==>
      && registry[i].0 in ContentOutcome(registry, translations).value
      && RecordOutcome(registry[i].1, registry[i].1.members, translations).Success?
      && ContentOutcome(registry, translations).value[registry[i].0] == RecordOutcome(registry[i].1, registry[i].1.members, translations).value
  {
    if registry != [] {
      var n := |registry| - 1;
      var init := registry[..n];
      var prev := ContentOutcome(init, translations);
      ContentOutcomeRecords(init, translations);
      assert forall i :: 0 <= i < n ==> init[i] == registry[i];
      var entry := registry[n];
      var record := RecordOutcome(entry.1, entry.1.members, translations);
      assert ContentOutcome(registry, translations).value == prev.value[entry.0 := record.value];
      forall i | 0 <= i < n ensures registry[i].0 != entry.0 {
        assert init[i].0 in prev.value;
      }
    }
  }

  /** The codes gathered for the build include the code of every member of
      every registered enum. */
  lemma {:induction false} AllCodesHas(registry: seq<(string, EnumType)>, i: nat, k: nat)
    requires i < |registry| && k < |registry[i].1.members|
    ensures TranslationCode(registry[i].1, registry[i].1.members[k].name) in AllCodes(registry)
  {
    var n := |registry| - 1;
    if i < n {
      AllCodesHas(registry[..n], i, k);
    } else {
      assert TranslationCodes(registry[n].1)[k] == TranslationCode(registry[i].1, registry[i].1.members[k].name);
    }
  }

  /** The translations of the child under `value` in the record under
      `name`; empty when there is no such child. */
  function ChildTranslationsOf(result: MetadataResult, name: string, value: string): seq<TranslationResult> {
    if name in result.content && value in result.content[name].children
    then result.content[name].children[value].translations
    else []
  }

  /** The translations the records of a build over a non-empty registry are
      made from. */
  function BuildTranslations(registry: seq<(string, EnumType)>, cultures: seq<string>, store: seq<Translation>, language: string): seq<Translation> {
    var codes := AllCodes(registry);
    FillDefaults(codes, Languages(cultures, language), Fetched(store, codes, cultures, language))
  }

  /** A build succeeds exactly when no name is registered twice and no enum
      repeats a value. A builder's registry never repeats a name, so only an
      enum with a repeated value makes it throw. */
  lemma BuildSucceedsIff(registry: seq<(string, EnumType)>, cultures: seq<string>, store: seq<Translation>, language: string)
    ensures BuildOutcome(registry, cultures, store, language).Success? <==>
      DistinctNames(registry) && forall i :: 0 <= i < |registry| ==> DistinctValues(registry[i].1.members)
  {
    if registry != [] {
      var translations := BuildTranslations(registry, cultures, store, language);
      ContentOutcomeSucceeds(registry, translations);
      forall i | 0 <= i < |registry|
        ensures RecordOutcome(registry[i].1, registry[i].1.members, translations).Success? <==> DistinctValues(registry[i].1.members)
      {
        RecordOutcomeSucceeds(registry[i].1, registry[i].1.members, translations);
      }
    }
  }

  /** A successful build has one content entry per registered name and, in
      it, one child per member of the enum, keyed by the member's value;
      the child holds exactly the translations whose key is the member's
      code. */
  lemma BuildShape(registry: seq<(string, EnumType)>, cultures: seq<string>, store: seq<Translation>, language: string)
    requires BuildOutcome(registry, cultures, store, language).Success?
    ensures var content := BuildOutcome(registry, cultures, store, language).value.content;
      forall name :: name in content <==> exists i :: 0 <= i < |registry| && registry[i].0 == name
    ensures registry != [] ==>
      var content := BuildOutcome(registry, cultures, store, language).value.content;
      var translations := BuildTranslations(registry, cultures, store, language);
      forall i, k :: 0 <= i < |registry| && 0 <= k < |registry[i].1.members| ==>
        && registry[i].0 in content
        && MemberValue(registry[i].1.members[k]) in content[registry[i].0].children
        && content[registry[i].0].children[MemberValue(registry[i].1.members[k])] == Child(registry[i].1, registry[i].1.members[k], translations)
  {
    if registry != [] {
      var translations := BuildTranslations(registry, cultures, store, language);
      ContentOutcomeSucceeds(registry, translations);
      ContentOutcomeRecords(registry, translations);
      forall i | 0 <= i < |registry| ensures
        var t := registry[i].1;
        forall k :: 0 <= k < |t.members| ==>
          && MemberValue(t.members[k]) in RecordOutcome(t, t.members, translations).value.children
          && RecordOutcome(t, t.members, translations).value.children[MemberValue(t.members[k])] == Child(t, t.members[k], translations)
      {
        RecordOutcomeChildren(registry[i].1, registry[i].1.members, translations);
      }
    }
  }

  /** A member's child has a translation in every language its code is
      translated into. */
  lemma ChildCovers(t: EnumType, m: EnumMember, translations: seq<Translation>, l: string)
    requires Covered(translations, TranslationCode(t, m.name), l)
    ensures var ts := Child(t, m, translations).translations;
      exists j :: 0 <= j < |ts| && ts[j].languageCode == l
  {
    var code := TranslationCode(t, m.name);
    var q :| 0 <= q < |translations| && translations[q].key == code && translations[q].language == l;
    var kept := Filter((tr: Translation) => tr.key == code, translations);
    assert translations[q] in kept;
    var j :| 0 <= j < |kept| && kept[j] == translations[q];
    assert Child(t, m, translations).translations[j] == AsResult(kept[j]);
  }

  /** After a successful build, the child of every member of every
      registered enum has a translation in every language the defaults were
      filled for: the requested one when supported, every supported culture
      otherwise. */
  lemma BuildCoversEveryLanguage(registry: seq<(string, EnumType)>, cultures: seq<string>, store: seq<Translation>, language: string,
                                 i: nat, k: nat, l: string)
    requires BuildOutcome(registry, cultures, store, language).Success?
    requires i < |registry| && k < |registry[i].1.members| && l in Languages(cultures, language)
    ensures var ts := ChildTranslationsOf(BuildOutcome(registry, cultures, store, language).value, registry[i].0, MemberValue(registry[i].1.members[k]));
      exists j :: 0 <= j < |ts| && ts[j].languageCode == l
  {
    var t := registry[i].1;
    var m := t.members[k];
    var codes := AllCodes(registry);
    var translations := BuildTranslations(registry, cultures, store, language);
    BuildShape(registry, cultures, store, language);
    assert ChildTranslationsOf(BuildOutcome(registry, cultures, store, language).value, registry[i].0, MemberValue(m))
        == Child(t, m, translations).translations;
    AllCodesHas(registry, i, k);
    FillDefaultsSpec(codes, Languages(cultures, language), Fetched(store, codes, cultures, language));
    ChildCovers(t, m, translations, l);
  }

  /** When the requested language is supported, every translation in the
      result is in that language: only its translations are read and only
      its defaults are filled. */
  lemma BuildUsesOnlyRequestedLanguage(registry: seq<(string, EnumType)>, cultures: seq<string>, store: seq<Translation>, language: string,
                                       name: string, value: string)
    requires LanguageExists(cultures, language)
    requires BuildOutcome(registry, cultures, store, language).Success?
    ensures var ts := ChildTranslationsOf(BuildOutcome(registry, cultures, store, language).value, name, value);
      forall j :: 0 <= j < |ts| ==> ts[j].languageCode == language
  {
    var result := BuildOutcome(registry, cultures, store, language).value;
    var ts := ChildTranslationsOf(result, name, value);
    if ts != [] {
      var translations := BuildTranslations(registry, cultures, store, language);
      TranslationsInLanguage(registry, cultures, store, language);
      BuildShape(registry, cultures, store, language);
      var i :| 0 <= i < |registry| && registry[i].0 == name;
      var t := registry[i].1;
      ContentOutcomeRecords(registry, translations);
      RecordOutcomeKeys(t, t.members, translations);
      var k :| 0 <= k < |t.members| && MemberValue(t.members[k]) == value;
      assert ts == Child(t, t.members[k], translations).translations;
      ChildInLanguage(t, t.members[k], translations, language);
    }
  }

  /** A member's child keeps only translations it was given, so it is in a
      single language when they all are. */
  lemma ChildInLanguage(t: EnumType, m: EnumMember, translations: seq<Translation>, language: string)
    requires forall q :: 0 <= q < |translations| ==> translations[q].language == language
    ensures var ts := Child(t, m, translations).translations;
      forall j :: 0 <= j < |ts| ==> ts[j].languageCode == language
  {
    var kept := Filter((tr: Translation) => tr.key == TranslationCode(t, m.name), translations);
    var ts := Child(t, m, translations).translations;
    forall j | 0 <= j < |ts| ensures ts[j].languageCode == language {
      assert kept[j] in translations;
    }
  }

  /** With a supported language, the translations a build reads and fills
      are all in that language. */
  lemma TranslationsInLanguage(registry: seq<(string, EnumType)>, cultures: seq<string>, store: seq<Translation>, language: string)
    requires LanguageExists(cultures, language)
    ensures var translations := BuildTranslations(registry, cultures, store, language);
      forall q :: 0 <= q < |translations| ==> translations[q].language == language
  {
    var codes := AllCodes(registry);
    var fetched := Fetched(store, codes, cultures, language);
    var translations := BuildTranslations(registry, cultures, store, language);
    FillDefaultsSpec(codes, [language], fetched);
    forall q | 0 <= q < |translations| ensures translations[q].language == language {
      if q < |fetched| {
        assert translations[q] == fetched[q];
      } else {
        assert translations[|fetched|..][q - |fetched|] == translations[q];
      }
    }
  }
}
