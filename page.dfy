/** The district page: its title, its stats line and its list, the records
    loaded for it, and how a load, a first display and each search change them. */
module Page {
  import opened JsValue
  import opened Voies
  import opened Text
  import opened Sequences
  import opened StringOrder
  import opened Sorting
  import opened District
  import opened Search
  import opened Whitespace

  /** What the list container holds. */
  datatype ListContent =
    | Loading                     // the loading indicator
    | ErrorBox(message: string)   // an error box in place of the list
    | Notice(text: string)        // the "nothing found" paragraph
    | Items(names: seq<string>)   // one item per record, showing its name

  /** What the single fetch of the dataset gives: the parsed records, or a failure
      (a transport error, a status that is not ok, or a body that is not JSON). */
  datatype Fetch = Fetched(voies: seq<Voie>) | FetchFailed

  const MissingCodeText := "Code postal manquant"
  const LoadErrorText := "Erreur lors du chargement des données: " + "Impossible de charger les données des voies"
  const NoneFoundText := "Aucune voie trouvée"

  /** The stats line for `n` records, "voie" and "trouvée" taking an "s" when n > 1. */
  function StatsLine(n: nat): string {
    var plural := if n > 1 then "s" else "";
    DecimalString(n) + " voie" + plural + " trouvée" + plural
  }

  /** The stats line is the count, which reads back as `n`, followed by words that
      are singular for one record and plural for more. */
  lemma StatsLineCount(n: nat)
    ensures StatsLine(n) == DecimalString(n) + (if n > 1 then " voies trouvées" else " voie trouvée")
    ensures ParseDecimal(DecimalString(n)) == n
  {
    ParseDecimalString(n);
    var plural := if n > 1 then "s" else "";
    var words := " voie" + plural + " trouvée" + plural;
    assert StatsLine(n) == DecimalString(n) + words;
    if n > 1 {
      assert words == " voies trouvées";
    } else {
      assert words == " voie trouvée";
    }
  }

  /** The names a list of records shows, in the list's order. */
  function DisplayNames(s: seq<Voie>): (names: seq<string>)
    ensures |names| == |s|
    ensures forall i :: 0 <= i < |s| ==> names[i] == DisplayName(s[i])
  {
    if s == [] then [] else DisplayNames(s[..|s| - 1]) + [DisplayName(s[|s| - 1])]
  }

  lemma DisplayNamesStep(s: seq<Voie>, i: nat)
    requires i < |s|
    ensures DisplayNames(s[..i + 1]) == DisplayNames(s[..i]) + [DisplayName(s[i])]
  {
    assert s[..i + 1][..i] == s[..i];
  }

  /** The list is ordered by the sort key, not by the name shown: a street whose
      shown name is composed from its type sorts by its bare name, so "Boulevard
      Voltaire" is listed before "Avenue Zola". */
  lemma ShownOrderFollowsKey(arrtd: Arrtd)
    ensures var zola := Voie(arrtd, None, None, Some("Zola"), Some("AV"), None);
            var voltaire := Voie(arrtd, Some("Boulevard Voltaire"), None, None, None, None);
            && DisplayNames(SortByKey([zola, voltaire])) == ["Boulevard Voltaire", "Avenue" + " " + "Zola"]
            && !Below("Boulevard Voltaire", "Avenue" + " " + "Zola")
  {
    var zola := Voie(arrtd, None, None, Some("Zola"), Some("AV"), None);
    var voltaire := Voie(arrtd, Some("Boulevard Voltaire"), None, None, None, None);
    assert SortKey(zola) == "Zola" && SortKey(voltaire) == "Boulevard Voltaire";
    assert !KeyLe(zola, voltaire);
    var s := [zola, voltaire];
    assert s[..1] == [zola] && [zola][..0] == [];
    assert SortByKey([zola]) == [zola];
    assert Insert(voltaire, [zola]) == [voltaire, zola];
    assert SortByKey(s) == [voltaire, zola];
    assert TypeLabel(zola.c_desi) == "Avenue" by {
      assert "AV" in TypeLabels;
    }
    assert IsWord("Avenue") && IsWord("Zola");
    DisplayNameTwoWords(zola);
    DisplayNameIsKeyWhenNamed(voltaire);
    assert [voltaire, zola][..1] == [voltaire];
  }

  /** Three records, two in the fifth district: the code "75005" keeps those two,
      lists "Bar Street" before "Rue Foo", and counts two streets. */
  lemma FifthDistrictExample(foo: Voie, bar: Voie, baz: Voie)
    requires foo == Voie(Code("05"), None, None, Some("Foo"), Some("RUE"), None)
    requires bar == Voie(Code("05"), Some("Bar Street"), None, None, None, None)
    requires baz == Voie(Code("06"), None, None, Some("Baz"), None, None)
    ensures FilterByDistrict([foo, bar, baz], DistrictKey("75005")) == [foo, bar]
    ensures DisplayNames(SortByKey([foo, bar])) == ["Bar Street", "Rue" + " " + "Foo"]
    ensures StatsLine(|FilterByDistrict([foo, bar, baz], DistrictKey("75005"))|) == "2" + " voies trouvées"
  {
    FifthDistrictFilter(foo, bar, baz);
    FifthDistrictOrder(foo, bar);
    StatsLineCount(2);
  }

  lemma FifthDistrictFilter(foo: Voie, bar: Voie, baz: Voie)
    requires foo.arrtd == Code("05") && bar.arrtd == Code("05") && baz.arrtd == Code("06")
    ensures FilterByDistrict([foo, bar, baz], DistrictKey("75005")) == [foo, bar]
  {
    var key := DistrictKey("75005");
    assert key == "05";
    assert [foo, bar, baz][1..] == [bar, baz] && [bar, baz][1..] == [baz] && [baz][1..] == [];
    assert FilterByDistrict([baz], key) == [];
    assert FilterByDistrict([bar, baz], key) == [bar];
  }

  lemma FifthDistrictOrder(foo: Voie, bar: Voie)
    requires foo == Voie(Code("05"), None, None, Some("Foo"), Some("RUE"), None)
    requires bar == Voie(Code("05"), Some("Bar Street"), None, None, None, None)
    ensures DisplayNames(SortByKey([foo, bar])) == ["Bar Street", "Rue" + " " + "Foo"]
  {
    var rues := [foo, bar];
    assert SortKey(foo) == "Foo" && SortKey(bar) == "Bar Street";
    assert !KeyLe(foo, bar);
    assert rues[..1] == [foo] && [foo][..0] == [];
    assert SortByKey([foo]) == [foo];
    assert Insert(bar, [foo]) == [bar, foo];
    assert SortByKey(rues) == [bar, foo];
    assert TypeLabel(foo.c_desi) == "Rue" by {
      assert "RUE" in TypeLabels;
    }
    assert IsWord("Rue") && IsWord("Foo");
    DisplayNameTwoWords(foo);
    DisplayNameIsKeyWhenNamed(bar);
    assert [bar, foo][..1] == [bar];
  }

  /** A new array holding `s`, as `filter` returns a new array. */
  method ArrayOf(s: seq<Voie>) returns (a: array<Voie>)
    ensures fresh(a) && a[..] == s
  {
    a := new Voie[|s|](i requires 0 <= i < |s| => s[i]);
  }

  class ArrondissementPage {
    var title: string
    var stats: string
    var list: ListContent
    /** The records the fetch produced. */
    var voiesData: seq<Voie>
    /** The district's records; sorted in place by the first display. */
    var ruesFiltered: array<Voie>
    /** Whether an input listener runs the search. */
    var listening: bool

    /** The district list the search works on is always in sort-key order. */
    ghost predicate Valid()
      reads this, ruesFiltered
    {
      SortedByKey(ruesFiltered[..])
    }

    /** A page as the HTML gives it, before any script has run. */
    constructor (title0: string, stats0: string, list0: ListContent)
      ensures Valid()
      ensures title == title0 && stats == stats0 && list == list0
      ensures voiesData == [] && ruesFiltered.Length == 0 && !listening
    {
      title, stats, list := title0, stats0, list0;
      voiesData := [];
      ruesFiltered := new Voie[0];
      listening := false;
    }

    /** Shows `rues`: nothing-found notice for an empty list, leaving the stats line
        as it was; otherwise sorts `rues` in place, writes the count and one item
        per record in the sorted order. */
    method Render(rues: array<Voie>)
      modifies this`stats, this`list, rues
      ensures rues.Length == 0 ==> list == Notice(NoneFoundText) && stats == old(stats)
      ensures rues.Length > 0 ==>
                && rues[..] == SortByKey(old(rues[..]))
                && stats == StatsLine(rues.Length)
                && list == Items(DisplayNames(rues[..]))
    {
      list := Items([]);
      if rues.Length == 0 {
        list := Notice(NoneFoundText);
        return;
      }
      SortInPlace(rues);
      stats := StatsLine(rues.Length);
      var i := 0;
      while i < rues.Length
        invariant 0 <= i <= rues.Length
        invariant list == Items(DisplayNames(rues[..i]))
        modifies this`list
      {
        DisplayNamesStep(rues[..], i);
        list := Items(list.names + [DisplayName(rues[i])]);
        i := i + 1;
      }
      assert rues[..] == rues[..rues.Length];
    }

    /** Keeps a new array of the district's records `rues` and shows it; the first
        display sorts that array in place. */
    method ShowDistrict(rues: seq<Voie>)
      modifies this`stats, this`list, this`ruesFiltered
      ensures Valid() && fresh(ruesFiltered)
      ensures ruesFiltered[..] == SortByKey(rues)
      ensures list == (if rues == [] then Notice(NoneFoundText) else Items(DisplayNames(SortByKey(rues))))
      ensures stats == (if rues == [] then old(stats) else StatsLine(|rues|))
    {
      ruesFiltered := ArrayOf(rues);
      Render(ruesFiltered);
      SortByKeySorted(rues);
    }

    /** Filters the loaded records by the district of `codePostal`, sets the title,
        shows the district's records and, when the page has a search box, starts
        listening to it. */
    method DisplayRues(codePostal: string, hasSearchInput: bool)
      modifies this`title, this`stats, this`list, this`ruesFiltered, this`listening
      ensures Valid() && fresh(ruesFiltered) && voiesData == old(voiesData)
      ensures var key := DistrictKey(codePostal);
              var rues := FilterByDistrict(voiesData, key);
              && ruesFiltered[..] == SortByKey(rues)
              && title == Title(key)
              && list == (if rues == [] then Notice(NoneFoundText) else Items(DisplayNames(SortByKey(rues))))
              && stats == (if rues == [] then old(stats) else StatsLine(|rues|))
              && listening == hasSearchInput
    {
      var key := DistrictKey(codePostal);
      var rues := FilterByDistrict(voiesData, key);
      title := Title(key);
      ShowDistrict(rues);
      listening := hasSearchInput;
    }

    /** Opens the page for the `code` query parameter: an error when it is missing or
        empty, otherwise the loading indicator, the fetch, and then either the
        load error or the district's display. */
    method Open(code: Option<string>, fetch: Fetch, hasSearchInput: bool)
      requires Valid()
      modifies this`title, this`stats, this`list, this`ruesFiltered, this`listening, this`voiesData
      ensures Valid()
      ensures !Truthy(code) || fetch.FetchFailed? ==>
                && list == ErrorBox(if Truthy(code) then LoadErrorText else MissingCodeText)
                && title == old(title) && stats == old(stats) && voiesData == old(voiesData)
                && ruesFiltered == old(ruesFiltered) && listening == old(listening)
      ensures Truthy(code) && fetch.Fetched? ==>
                var key := DistrictKey(code.value);
                var rues := FilterByDistrict(fetch.voies, key);
                && voiesData == fetch.voies
                && ruesFiltered[..] == SortByKey(rues)
                && title == Title(key)
                && list == (if rues == [] then Notice(NoneFoundText) else Items(DisplayNames(SortByKey(rues))))
                && stats == (if rues == [] then old(stats) else StatsLine(|rues|))
                && listening == hasSearchInput
    {
      if !Truthy(code) {
        list := ErrorBox(MissingCodeText);
        return;
      }
      list := Loading;
      match fetch
      case FetchFailed =>
        list := ErrorBox(LoadErrorText);
      case Fetched(voies) =>
        voiesData := voies;
        DisplayRues(code.value, hasSearchInput);
    }

    /** The input listener: shows the district's records whose key contains the
        typed text, ignoring case. They come out in the district list's order, and
        when none match the stats line keeps its previous count. */
    method OnSearch(value: string)
      requires Valid()
      modifies this`stats, this`list
      ensures Valid() && ruesFiltered[..] == old(ruesFiltered[..])
      ensures !listening ==> list == old(list) && stats == old(stats)
      ensures listening ==>
                var found := SearchFilter(ruesFiltered[..], value);
                && list == (if found == [] then Notice(NoneFoundText) else Items(DisplayNames(found)))
                && stats == (if found == [] then old(stats) else StatsLine(|found|))
      ensures listening && value == "" && ruesFiltered.Length > 0 ==>
                list == Items(DisplayNames(ruesFiltered[..]))
    {
      if listening {
        var found := SearchFilter(ruesFiltered[..], value);
        var shown := ArrayOf(found);
        SearchOfSorted(ruesFiltered[..], value);
        Render(shown);
        SearchEmptyQuery(ruesFiltered[..]);
      }
    }
  }
}
