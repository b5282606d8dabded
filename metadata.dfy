/** The metadata result builder: a registry of translated enums, by name,
    whose members are published with their translations. Missing
    (language, code) translations are filled in with a "[code]"
    placeholder. An enum is given as its name and its members, as
    `(name, integer value)` pairs in `Enum.GetNames` order, which sorts
    members by their underlying values taken as unsigned. */
module Metadata {
  import opened Common

  datatype EnumMember = EnumMember(name: string, value: int)

  datatype EnumType = EnumType(name: string, members: seq<EnumMember>)

  datatype Translation = Translation(key: string, language: string, value: string)

  datatype TranslationResult = TranslationResult(languageCode: string, value: string)

  /** A metadata record: children by key and translations. */
  datatype MetadataRecord = MetadataRecord(children: map<string, MetadataRecord>, translations: seq<TranslationResult>)

  datatype MetadataResult = MetadataResult(content: map<string, MetadataRecord>)

  /** Adding a key a dictionary already holds. */
  datatype Exc = DuplicateKey

  // ----- integer values as decimal strings -----

  predicate IsDigit(c: char) {
    '0' <= c <= '9'
  }

  function DigitChar(d: nat): (c: char)
    requires d < 10
    ensures IsDigit(c)
  {
    ('0' as int + d) as char
  }

  function DigitValue(c: char): (d: nat)
    requires IsDigit(c)
    ensures d < 10
  {
    c as int - '0' as int
  }

  /** The decimal digits of `n`, most significant first. */
  function NatToString(n: nat): (s: string)
    ensures |s| > 0 && forall i :: 0 <= i < |s| ==> IsDigit(s[i])
  {
    if n < 10 then [DigitChar(n)] else NatToString(n / 10) + [DigitChar(n % 10)]
  }

  /** `int.ToString()` with the invariant culture's "-" sign. */
  function IntToString(i: int): (s: string)
    ensures |s| > 0
    ensures s[0] == '-' <==> i < 0
  {
    if i < 0 then "-" + NatToString(-i) else NatToString(i)
  }

  /** Reads a non-empty string of decimal digits. */
  function ParseNat(s: string): nat
    requires |s| > 0 && forall i :: 0 <= i < |s| ==> IsDigit(s[i])
  {
    if |s| == 1 then DigitValue(s[0]) else ParseNat(s[..|s| - 1]) * 10 + DigitValue(s[|s| - 1])
  }

  lemma {:induction false} NatToStringRoundTrip(n: nat)
    ensures ParseNat(NatToString(n)) == n
  {
    if n >= 10 {
      var s := NatToString(n);
      assert s[..|s| - 1] == NatToString(n / 10);
      NatToStringRoundTrip(n / 10);
    }
  }

  /** Distinct integers print differently, so an enum's children are keyed
      apart exactly when its member values differ. */
  lemma IntToStringInjective(a: int, b: int)
    ensures IntToString(a) == IntToString(b) <==> a == b
  {
    if IntToString(a) == IntToString(b) {
      if a < 0 {
        SignedDigits(a);
        SignedDigits(b);
        NatToStringInjective(-a, -b);
      } else {
        NatToStringInjective(a, b);
      }
    }
  }

  lemma SignedDigits(i: int)
    requires i < 0
    ensures IntToString(i)[1..] == NatToString(-i)
  {
    assert ("-" + NatToString(-i))[1..] == NatToString(-i);
  }

  lemma NatToStringInjective(a: nat, b: nat)
    requires NatToString(a) == NatToString(b)
    ensures a == b
  {
    NatToStringRoundTrip(a);
    NatToStringRoundTrip(b);
  }

  // ----- translation codes -----

  /** The translation code of an enum member. */
  function TranslationCode(t: EnumType, name: string): string {
    t.name + "_" + name
  }

  /** Within one enum, distinct members have distinct codes. */
  lemma TranslationCodeInjective(t: EnumType, a: string, b: string)
    ensures TranslationCode(t, a) == TranslationCode(t, b) <==> a == b
  {
    if TranslationCode(t, a) == TranslationCode(t, b) {
      var p := |t.name + "_"|;
      assert a == TranslationCode(t, a)[p..];
      assert b == TranslationCode(t, b)[p..];
    }
  }

  /** The child key of an enum member: its integer value, printed. */
  function MemberValue(m: EnumMember): string {
    IntToString(m.value)
  }

  /** The codes of an enum's members, one per member in the order the members are given. */
  function TranslationCodes(t: EnumType): (codes: seq<string>)
    ensures |codes| == |t.members|
    ensures forall i :: 0 <= i < |t.members| ==> codes[i] == TranslationCode(t, t.members[i].name)
  {
    MapSeq((m: EnumMember) => TranslationCode(t, m.name), t.members)
  }

  /** The codes of every registered enum, registry order first. */
  function AllCodes(registry: seq<(string, EnumType)>): seq<string> {
    if registry == [] then []
    else AllCodes(registry[..|registry| - 1]) + TranslationCodes(registry[|registry| - 1].1)
  }

  // ----- default translations -----

  /** Whether some translation of `code` into `language` exists. */
  predicate Covered(translations: seq<Translation>, code: string, language: string) {
    exists i :: 0 <= i < |translations| && translations[i].key == code && translations[i].language == language
  }

  /** The placeholder value of a missing translation. */
  function Placeholder(code: string): string {
    "[" + code + "]"
  }

  /** The inner loop of the default filling: one language, every code in
      order, adding a placeholder for each code not yet covered. */
  function FillLanguage(codes: seq<string>, language: string, acc: seq<Translation>): seq<Translation> {
    if codes == [] then acc
    else
      var next := if Covered(acc, codes[0], language) then acc
                  else acc + [Translation(codes[0], language, Placeholder(codes[0]))];
      FillLanguage(codes[1..], language, next)
  }

  /** The default filling: every language in order, each over every code. */
  function FillDefaults(codes: seq<string>, languages: seq<string>, acc: seq<Translation>): seq<Translation> {
    if languages == [] then acc
    else FillDefaults(codes, languages[1..], FillLanguage(codes, languages[0], acc))
  }

  /** The translations `added` to `existing` are placeholders for pairs of a
      listed code and language that `existing` did not cover, each pair at
      most once. */
  ghost predicate PlaceholdersFor(existing: seq<Translation>, added: seq<Translation>, codes: seq<string>, languages: seq<string>) {
    && (forall i :: 0 <= i < |added| ==>
          && added[i].key in codes && added[i].language in languages
          && added[i].value == Placeholder(added[i].key)
          && !Covered(existing, added[i].key, added[i].language))
    && (forall i, j :: 0 <= i < j < |added| ==>
          added[i].key != added[j].key || added[i].language != added[j].language)
  }

  /** A translation found in a sequence stays found in any extension. */
  lemma CoveredGrows(a: seq<Translation>, b: seq<Translation>, code: string, language: string)
    requires a <= b && Covered(a, code, language)
    ensures Covered(b, code, language)
  {
    var i :| 0 <= i < |a| && a[i].key == code && a[i].language == language;
    assert b[i] == a[i];
  }

  /** Placeholders added in two rounds, the second after the first, are
      placeholders for the whole. */
  lemma PlaceholdersConcat(existing: seq<Translation>, a: seq<Translation>, b: seq<Translation>,
                           codesA: seq<string>, languagesA: seq<string>,
                           codesB: seq<string>, languagesB: seq<string>,
                           codes: seq<string>, languages: seq<string>)
    requires PlaceholdersFor(existing, a, codesA, languagesA)
    requires PlaceholdersFor(existing + a, b, codesB, languagesB)
    requires forall c :: c in codesA || c in codesB ==> c in codes
    requires forall l :: l in languagesA || l in languagesB ==> l in languages
    ensures PlaceholdersFor(existing, a + b, codes, languages)
  {
    var added := a + b;
    forall i | |a| <= i < |added|
      ensures !Covered(existing, added[i].key, added[i].language)
    {
      assert added[i] == b[i - |a|];
      if Covered(existing, added[i].key, added[i].language) {
        CoveredGrows(existing, existing + a, added[i].key, added[i].language);
      }
    }
    forall i, j | 0 <= i < j < |added|
      ensures added[i].key != added[j].key || added[i].language != added[j].language
    {
      if j >= |a| {
        assert added[j] == b[j - |a|];
        if i < |a| {
          assert (existing + a)[|existing| + i] == added[i];
          assert Covered(existing + a, added[i].key, added[i].language);
        } else {
          assert added[i] == b[i - |a|];
        }
      }
    }
  }

  /** One language's pass keeps what was there, covers every code in that
      language, and adds only placeholders for pairs missing before, each
      at most once. */
  lemma {:induction false} FillLanguageSpec(codes: seq<string>, language: string, acc: seq<Translation>)
    ensures var r := FillLanguage(codes, language, acc);
      && acc <= r
      && (forall c :: c in codes ==> Covered(r, c, language))
      && PlaceholdersFor(acc, r[|acc|..], codes, [language])
  {
    FillLanguageAdds(codes, language, acc);
    FillLanguageCovers(codes, language, acc);
  }

  lemma {:induction false} FillLanguagePrefix(codes: seq<string>, language: string, acc: seq<Translation>)
    ensures acc <= FillLanguage(codes, language, acc)
  {
    if codes != [] {
      var next := if Covered(acc, codes[0], language) then acc
                  else acc + [Translation(codes[0], language, Placeholder(codes[0]))];
      FillLanguagePrefix(codes[1..], language, next);
      assert FillLanguage(codes, language, acc)[..|acc|] == next[..|acc|];
    }
  }

  lemma {:induction false} FillLanguageCovers(codes: seq<string>, language: string, acc: seq<Translation>)
    ensures forall c :: c in codes ==> Covered(FillLanguage(codes, language, acc), c, language)
  {
    if codes != [] {
      var r := FillLanguage(codes, language, acc);
      var covered := Covered(acc, codes[0], language);
      var next := if covered then acc else acc + [Translation(codes[0], language, Placeholder(codes[0]))];
      assert r == FillLanguage(codes[1..], language, next);
      FillLanguageCovers(codes[1..], language, next);
      FillLanguagePrefix(codes[1..], language, next);
      assert Covered(next, codes[0], language) by {
        if !covered { assert next[|acc|].key == codes[0] && next[|acc|].language == language; }
      }
      CoveredGrows(next, r, codes[0], language);
      forall c | c in codes ensures Covered(r, c, language) {
        if c != codes[0] { assert c in codes[1..]; }
      }
    }
  }

  lemma {:induction false} FillLanguageAdds(codes: seq<string>, language: string, acc: seq<Translation>)
    ensures acc <= FillLanguage(codes, language, acc)
    ensures PlaceholdersFor(acc, FillLanguage(codes, language, acc)[|acc|..], codes, [language])
  {
    FillLanguagePrefix(codes, language, acc);
    var r := FillLanguage(codes, language, acc);
    if codes == [] {
      assert r[|acc|..] == [];
    } else {
      var covered := Covered(acc, codes[0], language);
      var a := if covered then [] else [Translation(codes[0], language, Placeholder(codes[0]))];
      var next := if covered then acc else acc + a;
      assert next == acc + a;
      assert r == FillLanguage(codes[1..], language, next);
      FillLanguageAdds(codes[1..], language, next);
      assert r[|acc|..] == a + r[|next|..];
      FillStep(acc, a, r[|next|..], codes, language);
    }
  }

  /** The placeholder added for the first code, if any, followed by those
      added for the remaining codes, are placeholders for all the codes. */
  lemma FillStep(acc: seq<Translation>, a: seq<Translation>, rest: seq<Translation>, codes: seq<string>, language: string)
    requires codes != []
    requires a == if Covered(acc, codes[0], language) then [] else [Translation(codes[0], language, Placeholder(codes[0]))]
    requires PlaceholdersFor(acc + a, rest, codes[1..], [language])
    ensures PlaceholdersFor(acc, a + rest, codes, [language])
  {
    assert PlaceholdersFor(acc, a, codes, [language]);
    assert forall c :: c in codes[1..] ==> c in codes;
    PlaceholdersConcat(acc, a, rest, codes, [language], codes[1..], [language], codes, [language]);
  }

  /** The default filling keeps every existing translation, covers every
      pair of a listed code and language, and adds only placeholders for
      pairs missing before, each at most once. */
  lemma {:induction false} FillDefaultsSpec(codes: seq<string>, languages: seq<string>, acc: seq<Translation>)
    ensures var r := FillDefaults(codes, languages, acc);
      && acc <= r
      && (forall c, l :: c in codes && l in languages ==> Covered(r, c, l))
      && PlaceholdersFor(acc, r[|acc|..], codes, languages)
  {
    var r := FillDefaults(codes, languages, acc);
    if languages == [] {
      assert r[|acc|..] == [];
    } else {
      var mid := FillLanguage(codes, languages[0], acc);
      FillLanguageSpec(codes, languages[0], acc);
      FillDefaultsSpec(codes, languages[1..], mid);
      forall c, l | c in codes && l in languages ensures Covered(r, c, l) {
        if l == languages[0] {
          CoveredGrows(mid, r, c, l);
        } else {
          assert l in languages[1..];
        }
      }
      assert mid == acc + mid[|acc|..];
      assert r[|acc|..] == mid[|acc|..] + r[|mid|..];
      PlaceholdersConcat(acc, mid[|acc|..], r[|mid|..], codes, [languages[0]], codes, languages[1..], codes, languages);
    }
  }

  /** A pass over codes that are all covered changes nothing. */
  lemma {:induction false} FillLanguageKeeps(codes: seq<string>, language: string, acc: seq<Translation>)
    requires forall c :: c in codes ==> Covered(acc, c, language)
    ensures FillLanguage(codes, language, acc) == acc
  {
    if codes != [] {
      FillLanguageKeeps(codes[1..], language, acc);
    }
  }

  /** Filling translations that already cover every pair changes nothing. */
  lemma {:induction false} FillDefaultsKeeps(codes: seq<string>, languages: seq<string>, acc: seq<Translation>)
    requires forall c, l :: c in codes && l in languages ==> Covered(acc, c, l)
    ensures FillDefaults(codes, languages, acc) == acc
  {
    if languages != [] {
      FillLanguageKeeps(codes, languages[0], acc);
      FillDefaultsKeeps(codes, languages[1..], acc);
    }
  }

  /** Filling the defaults twice adds nothing the first time did not. */
  lemma FillDefaultsIdempotent(codes: seq<string>, languages: seq<string>, existing: seq<Translation>)
    ensures FillDefaults(codes, languages, FillDefaults(codes, languages, existing)) == FillDefaults(codes, languages, existing)
  {
    FillDefaultsSpec(codes, languages, existing);
    FillDefaultsKeeps(codes, languages, FillDefaults(codes, languages, existing));
  }

  /** Each pair of a listed code and language with no existing translation
      gets exactly one, the "[code]" placeholder. */
  lemma ExactlyOnePlaceholder(codes: seq<string>, languages: seq<string>, existing: seq<Translation>, code: string, language: string)
    requires code in codes && language in languages && !Covered(existing, code, language)
    ensures var r := FillDefaults(codes, languages, existing);
      exists k :: |existing| <= k < |r| && r[k] == Translation(code, language, Placeholder(code))
        && forall j :: 0 <= j < |r| && j != k ==> r[j].key != code || r[j].language != language
  {
    var r := FillDefaults(codes, languages, existing);
    FillDefaultsSpec(codes, languages, existing);
    var k :| 0 <= k < |r| && r[k].key == code && r[k].language == language;
    var added := r[|existing|..];
    assert added[k - |existing|] == r[k];
    forall j | 0 <= j < |r| && j != k ensures r[j].key != code || r[j].language != language {
      if j < |existing| {
        assert existing[j] == r[j];
      } else {
        assert added[j - |existing|] == r[j];
      }
    }
  }

  /** Fills in every missing (language, code) translation, as the nested
      loops of the builder do. The result keeps every existing translation,
      covers every pair of a code and a language, and adds only "[code]"
      placeholders for pairs that had none, each at most once. */
  method SetDefaultValues(codes: seq<string>, languages: seq<string>, existing: seq<Translation>) returns (result: seq<Translation>)
    ensures result == FillDefaults(codes, languages, existing)
    ensures existing <= result
    ensures forall c, l :: c in codes && l in languages ==> Covered(result, c, l)
    ensures PlaceholdersFor(existing, result[|existing|..], codes, languages)
  {
    result := existing;
    for i := 0 to |languages|
      invariant FillDefaults(codes, languages, existing) == FillDefaults(codes, languages[i..], result)
    {
      var language := languages[i];
      ghost var start := result;
      for j := 0 to |codes|
        invariant FillLanguage(codes, language, start) == FillLanguage(codes[j..], language, result)
      {
        var code := codes[j];
        assert codes[j..][1..] == codes[j + 1..];
        if !Covered(result, code, language) {
          result := result + [Translation(code, language, Placeholder(code))];
        }
      }
      assert languages[i..][1..] == languages[i + 1..];
    }
    assert languages[|languages|..] == [];
    FillDefaultsSpec(codes, languages, existing);
  }

  // ----- metadata records -----

  function AsResult(t: Translation): TranslationResult {
    TranslationResult(t.language, t.value)
  }

  /** The child record of an enum member: every translation of its code. */
  function Child(t: EnumType, m: EnumMember, translations: seq<Translation>): MetadataRecord {
    MetadataRecord(map[], MapSeq(AsResult, Filter((tr: Translation) => tr.key == TranslationCode(t, m.name), translations)))
  }

  /** The record of an enum, one child per member added in the given
      member order (`Enum.GetNames` order); a member whose value is already
      a key throws. */
  function RecordOutcome(t: EnumType, members: seq<EnumMember>, translations: seq<Translation>): Result<MetadataRecord, Exc> {
    if members == [] then Success(MetadataRecord(map[], []))
    else match RecordOutcome(t, members[..|members| - 1], translations)
      case Failure(e) => Failure(e)
      case Success(record) =>
        var m := members[|members| - 1];
        if MemberValue(m) in record.children then Failure(DuplicateKey)
        else Success(record.(children := record.children[MemberValue(m) := Child(t, m, translations)]))
  }

  /** The translations of a member's code, in order, as translation results. */
  method ChildTranslations(code: string, translations: seq<Translation>) returns (rs: seq<TranslationResult>)
    ensures rs == MapSeq(AsResult, Filter((tr: Translation) => tr.key == code, translations))
  {
    rs := [];
    for i := 0 to |translations|
      invariant rs == MapSeq(AsResult, Filter((tr: Translation) => tr.key == code, translations[..i]))
    {
      KeptStep(code, translations, i);
      if translations[i].key == code {
        rs := rs + [AsResult(translations[i])];
      }
    }
    assert translations[..|translations|] == translations;
  }

  /** One more translation extends the kept results by its own result when
      its key is the code. */
  lemma KeptStep(code: string, translations: seq<Translation>, i: nat)
    requires i < |translations|
    ensures MapSeq(AsResult, Filter((tr: Translation) => tr.key == code, translations[..i + 1]))
         == MapSeq(AsResult, Filter((tr: Translation) => tr.key == code, translations[..i]))
            + (if translations[i].key == code then [AsResult(translations[i])] else [])
  {
    var p := (tr: Translation) => tr.key == code;
    FilterAppend(p, translations[..i], [translations[i]]);
    assert translations[..i + 1] == translations[..i] + [translations[i]];
    MapSeqAppend(AsResult, Filter(p, translations[..i]), Filter(p, [translations[i]]));
  }

  lemma {:induction false} MapSeqAppend<T, U>(f: T -> U, a: seq<T>, b: seq<T>)
    ensures MapSeq(f, a + b) == MapSeq(f, a) + MapSeq(f, b)
  {
    if a == [] {
      assert a + b == b;
    } else {
      assert (a + b)[1..] == a[1..] + b;
      MapSeqAppend(f, a[1..], b);
    }
  }

  /** Builds an enum's record: one child per member, keyed by its value. */
  method BuildMetadataRecord(t: EnumType, translations: seq<Translation>) returns (r: Result<MetadataRecord, Exc>)
    ensures r == RecordOutcome(t, t.members, translations)
  {
    var children: map<string, MetadataRecord> := map[];
    for i := 0 to |t.members|
      invariant RecordOutcome(t, t.members[..i], translations) == Success(MetadataRecord(children, []))
    {
      var m := t.members[i];
      var rs := ChildTranslations(TranslationCode(t, m.name), translations);
      assert t.members[..i + 1][..i] == t.members[..i];
      var value := MemberValue(m);
      if value in children {
        FailureStays(t, t.members, i + 1, translations);
        return Failure(DuplicateKey);
      }
      children := children[value := MetadataRecord(map[], rs)];
    }
    assert t.members[..|t.members|] == t.members;
    return Success(MetadataRecord(children, []));
  }

  /** Once a prefix of the members fails, the whole enum fails. */
  lemma {:induction false} FailureStays(t: EnumType, members: seq<EnumMember>, k: nat, translations: seq<Translation>)
    requires k <= |members|
    requires RecordOutcome(t, members[..k], translations).Failure?
    ensures RecordOutcome(t, members, translations) == RecordOutcome(t, members[..k], translations)
    decreases |members| - k
  {
    if k < |members| {
      assert members[..k + 1][..k] == members[..k];
      FailureStays(t, members, k + 1, translations);
    } else {
      assert members[..k] == members;
    }
  }

  /** The result content, one record per registered name in registry
      order; a name already present throws. */
  function ContentOutcome(registry: seq<(string, EnumType)>, translations: seq<Translation>): Result<map<string, MetadataRecord>, Exc> {
    if registry == [] then Success(map[])
    else match ContentOutcome(registry[..|registry| - 1], translations)
      case Failure(e) => Failure(e)
      case Success(content) =>
        var entry := registry[|registry| - 1];
        match RecordOutcome(entry.1, entry.1.members, translations)
        case Failure(e) => Failure(e)
        case Success(record) =>
          if entry.0 in content then Failure(DuplicateKey) else Success(content[entry.0 := record])
  }

  lemma {:induction false} ContentFailureStays(registry: seq<(string, EnumType)>, k: nat, translations: seq<Translation>)
    requires k <= |registry|
    requires ContentOutcome(registry[..k], translations).Failure?
    ensures ContentOutcome(registry, translations) == ContentOutcome(registry[..k], translations)
    decreases |registry| - k
  {
    if k < |registry| {
      assert registry[..k + 1][..k] == registry[..k];
      ContentFailureStays(registry, k + 1, translations);
    } else {
      assert registry[..k] == registry;
    }
  }

  // ----- the build -----

  /** The translation codes of every registered enum, gathered in a loop. */
  method CollectCodes(registry: seq<(string, EnumType)>) returns (codes: seq<string>)
    ensures codes == AllCodes(registry)
  {
    codes := [];
    for i := 0 to |registry|
      invariant codes == AllCodes(registry[..i])
    {
      assert registry[..i + 1][..i] == registry[..i];
      codes := codes + TranslationCodes(registry[i].1);
    }
    assert registry[..|registry|] == registry;
  }

  /** Adds one record per registered enum to the content. */
  method BuildContent(registry: seq<(string, EnumType)>, translations: seq<Translation>) returns (r: Result<map<string, MetadataRecord>, Exc>)
    ensures r == ContentOutcome(registry, translations)
  {
    var content: map<string, MetadataRecord> := map[];
    for i := 0 to |registry|
      invariant ContentOutcome(registry[..i], translations) == Success(content)
    {
      assert registry[..i + 1][..i] == registry[..i];
      var record := BuildMetadataRecord(registry[i].1, translations);
      if record.Failure? || registry[i].0 in content {
        ContentFailureStays(registry, i + 1, translations);
        return ContentOutcome(registry[..i + 1], translations);
      }
      content := content[registry[i].0 := record.value];
    }
    assert registry[..|registry|] == registry;
    return Success(content);
  }

  /** Whether the requested language is given and supported. */
  predicate LanguageExists(cultures: seq<string>, language: string) {
    !IsBlank(language) && language in cultures
  }

  /** The languages the defaults are filled for. */
  function Languages(cultures: seq<string>, language: string): seq<string> {
    if LanguageExists(cultures, language) then [language] else cultures
  }

  /** The stored translations the build reads: those of the given codes, in
      the requested language alone when it is supported. */
  function Fetched(store: seq<Translation>, codes: seq<string>, cultures: seq<string>, language: string): seq<Translation> {
    if LanguageExists(cultures, language) then Filter((t: Translation) => t.key in codes && t.language == language, store)
    else Filter((t: Translation) => t.key in codes, store)
  }

  /** The outcome of a build over a registry. */
  function BuildOutcome(registry: seq<(string, EnumType)>, cultures: seq<string>, store: seq<Translation>, language: string): Result<MetadataResult, Exc> {
    if registry == [] then Success(MetadataResult(map[]))
    else
      var codes := AllCodes(registry);
      var translations := FillDefaults(codes, Languages(cultures, language), Fetched(store, codes, cultures, language));
      match ContentOutcome(registry, translations)
      case Failure(e) => Failure(e)
      case Success(content) => Success(MetadataResult(content))
  }

  class MetadataResultBuilder {
    /** The names of the supported UI cultures. */
    const cultures: seq<string>
    /** The translation store's contents, in query order. */
    const store: seq<Translation>
    /** The registered enums by name, in registration order. */
    var registry: seq<(string, EnumType)>

    ghost predicate Valid()
      reads this
    {
      forall i, j :: 0 <= i < j < |registry| ==> registry[i].0 != registry[j].0
    }

    constructor (cultures: seq<string>, store: seq<Translation>)
      ensures Valid() && registry == [] && this.cultures == cultures && this.store == store
    {
      this.cultures := cultures;
      this.store := store;
      registry := [];
    }

    /** Registers an enum under a name and returns this builder; a name
        already registered throws and leaves the registry as it was. */
    method AddTranslatedEnum(name: string, t: EnumType) returns (r: Result<MetadataResultBuilder, Exc>)
      requires Valid()
      modifies this
      ensures Valid()
      ensures r.Failure? <==> exists i :: 0 <= i < |old(registry)| && old(registry)[i].0 == name
      ensures r.Success? ==> r.value == this && registry == old(registry) + [(name, t)]
      ensures r.Failure? ==> registry == old(registry)
    {
      if exists i :: 0 <= i < |registry| && registry[i].0 == name {
        return Failure(DuplicateKey);
      }
      registry := registry + [(name, t)];
      return Success(this);
    }

    /** Builds the metadata for a language. With nothing registered the
        content is empty and the store is not read. The store is a constant
        sequence here, so `queried` is ghost bookkeeping set by hand next to
        the statement that reads it; its contract is read against the code,
        not derived from it. */
    method Build(language: string) returns (r: Result<MetadataResult, Exc>, ghost queried: bool)
      ensures r == BuildOutcome(registry, cultures, store, language)
      ensures queried <==> registry != []
    {
      queried := false;
      if registry == [] {
        return Success(MetadataResult(map[])), queried;
      }
      var codes := CollectCodes(registry);
      var languages := Languages(cultures, language);
      var fetched := Fetched(store, codes, cultures, language);
      queried := true;
      var translations := SetDefaultValues(codes, languages, fetched);
      var content := BuildContent(registry, translations);
      if content.Failure? {
        return Failure(content.error), queried;
      }
      return Success(MetadataResult(content.value)), queried;
    }
  }
}
