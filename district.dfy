/** Choosing the district's records and the page title from the postal code. */
module District {
  import opened Voies
  import opened Sequences
  import opened Text
  import opened JsNumber

  /** The key of the aggregate view of every district. */
  const AllKey := "00"

  /** `codePostal.substring(3)`: "75005" gives "05". */
  function DistrictKey(codePostal: string): string {
    SubstringFrom3(codePostal)
  }

  /** The filter's test: in the aggregate view any `arrtd` that is not `null`
      (a missing field included), otherwise an `arrtd` equal to the key as a string. */
  predicate InDistrict(key: string, v: Voie) {
    if key == AllKey then v.arrtd != Null else v.arrtd == Code(key)
  }

  /** `voiesData.filter(...)` with the district's test. */
  function FilterByDistrict(voies: seq<Voie>, key: string): seq<Voie> {
    Filter(v => InDistrict(key, v), voies)
  }

  /** The district filter keeps, in their order, exactly the records of the
      district, each as often as it occurs: in the aggregate view every record
      whose `arrtd` is not `null`, otherwise every record whose `arrtd` is the key. */
  lemma FilterByDistrictContents(voies: seq<Voie>, key: string)
    ensures IsSubsequence(FilterByDistrict(voies, key), voies)
    ensures key == AllKey ==> forall v :: v in FilterByDistrict(voies, key) <==> v in voies && v.arrtd != Null
    ensures key != AllKey ==> forall v :: v in FilterByDistrict(voies, key) <==> v in voies && v.arrtd == Code(key)
    ensures forall v :: multiset(FilterByDistrict(voies, key))[v] == if InDistrict(key, v) then multiset(voies)[v] else 0
  {
    FilterIsSubsequence(v => InDistrict(key, v), voies);
    FilterCounts(v => InDistrict(key, v), voies);
  }

  /** The comparison is on strings: a code written without its leading zero, or
      with an extra one, is not the district's. */
  lemma DistrictCodeIsExact(voies: seq<Voie>, v: Voie)
    requires v.arrtd == Code("5") || v.arrtd == Code("005") || v.arrtd == Code("015")
    ensures v !in FilterByDistrict(voies, "05")
    ensures v !in FilterByDistrict(voies, "15")
  {
    FilterByDistrictContents(voies, "05");
    FilterByDistrictContents(voies, "15");
  }

  /** The names of the title's lookup object, in the order of their keys "00" to
      "20": entry `n` is the name under the two-digit key of `n`. */
  const DistrictNames: seq<string> := [
    "Tous Arrondissements Confondus",
    "Louvre", "Bourse", "Temple",
    "Hôtel-de-Ville", "Panthéon", "Luxembourg",
    "Palais-Bourbon", "Élysée", "Opéra",
    "Entrepôt", "Popincourt", "Reuilly",
    "Gobelins", "Observatoire", "Vaugirard",
    "Passy", "Batignolles-Monceau", "Buttes-Montmartre",
    "Buttes-Chaumont", "Ménilmontant"]

  /** The keys of the lookup object: two decimal digits, "00" to "20". */
  predicate IsNameKey(key: string) {
    |key| == 2 && AllDigits(key) && ParseDecimal(key) <= 20
  }

  /** `arrondissementNames[key]` in the title: the name under the key, or what an
      absent property renders as in a template literal. */
  function NameOf(key: string): (name: string)
    ensures !IsNameKey(key) ==> name == "undefined"
  {
    if IsNameKey(key) then DistrictNames[ParseDecimal(key)] else "undefined"
  }

  /** The two-digit key of district `n`, with a leading zero below 10. */
  function TwoDigits(n: nat): (k: string)
    requires n < 100
    ensures |k| == 2 && AllDigits(k)
  {
    [DigitChar(n / 10), DigitChar(n % 10)]
  }

  /** The two-digit key of `n` reads as `n`, so districts 0 to 20 each have their
      key in the lookup object, and only district 0 has the aggregate key. */
  lemma DistrictKeyInTable(n: nat)
    requires n <= 20
    ensures ParseDecimal(TwoDigits(n)) == n
    ensures IsNameKey(TwoDigits(n)) && NameOf(TwoDigits(n)) == DistrictNames[n]
    ensures TwoDigits(n) == AllKey <==> n == 0
  {
    var k := TwoDigits(n);
    assert k[..1] == [k[0]];
    assert ParseDecimal(k[..1]) == n / 10;
    if n == 0 {
      assert k == "00";
    } else {
      assert k[0] != '0' || k[1] != '0';
    }
  }

  /** The page title: the aggregate title for "00", otherwise the number `parseInt`
      reads from the key, the suffix "er" for "01" and "e" for any other key, and
      the name under the key. */
  function Title(key: string): string {
    if key == AllKey then "Paris - " + DistrictNames[0]
    else
      var suffix := if key == "01" then "er" else "e";
      NumberText(ParseInt(key)) + suffix + " Arrondissement - " + NameOf(key)
  }

  /** Every key of the names table is the two-digit key of its own value, so the
      titles of `TwoDigits(n)` for n <= 20, and those outside the table, cover
      every key. */
  lemma NameKeyIsTwoDigits(k: string)
    requires IsNameKey(k)
    ensures ParseDecimal(k) <= 20 && k == TwoDigits(ParseDecimal(k))
  {
    assert k[..1] == [k[0]];
  }

  /** The title of district `n` starts with `n` written without a leading zero,
      with the ordinal suffix "er" for the first district and "e" for the others,
      and ends with the district's name. */
  lemma TitleOfDistrict(n: nat)
    requires 1 <= n <= 20
    ensures Title(TwoDigits(n))
      == DecimalString(n) + (if n == 1 then "er" else "e") + " Arrondissement - " + DistrictNames[n]
  {
    var k := TwoDigits(n);
    DistrictKeyInTable(n);
    DecimalDigits(k);
    ReadDecimalText(n);
    assert k == "01" <==> n == 1;
  }

  /** A key outside the lookup object still gets a title: the number `parseInt`
      reads from it, the suffix "e", and "undefined" for the name. */
  lemma TitleOutsideTable(key: string)
    requires !IsNameKey(key)
    ensures Title(key) == NumberText(ParseInt(key)) + "e" + " Arrondissement - " + "undefined"
  {
    DistrictKeyInTable(0);
    DistrictKeyInTable(1);
    assert TwoDigits(1) == "01";
  }

  /** A key without digits (a code of three characters or fewer gives the empty key)
      has "NaN" for its number. */
  lemma TitleWithoutDigits(key: string)
    requires forall i :: 0 <= i < |key| ==> !IsDigit(key[i])
    ensures Title(key) == "NaN" + "e" + " Arrondissement - " + "undefined"
  {
    assert !IsNameKey(key) by {
      if key != [] {
        assert !IsDigit(key[0]);
      }
    }
    NoDigitIsNaN(key);
    TitleOutsideTable(key);
  }

  /** The aggregate view's title. */
  lemma TitleOfAll()
    ensures Title(AllKey) == "Paris - " + "Tous Arrondissements Confondus"
  {
  }
}
