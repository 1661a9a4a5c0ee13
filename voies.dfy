/** One street record of the dataset, the key the list is sorted and searched by,
    and the name each list item shows. */
module Voies {
  import opened JsValue
  import opened Whitespace

  /** The record's `arrtd` field: JSON `null`, no field at all, or a district code.
      The page treats `null` and a missing field differently. */
  datatype Arrtd = Null | Missing | Code(code: string)

  /** A street record; the field names are the dataset's. */
  datatype Voie = Voie(
    arrtd: Arrtd,
    l_longmin: Option<string>,
    l_courtmin: Option<string>,
    l_voie: Option<string>,
    c_desi: Option<string>,
    c_liaison: Option<string>)

  /** The sort and search key `l_longmin || l_courtmin || l_voie || ''`. */
  function SortKey(v: Voie): string {
    Or(v.l_longmin, Or(v.l_courtmin, Or(v.l_voie, "")))
  }

  /** The fifteen street-type codes the composer spells out. */
  const TypeLabels: map<string, string> := map[
    "RUE" := "Rue", "AV" := "Avenue", "BD" := "Boulevard",
    "PAS" := "Passage", "IMP" := "Impasse", "PL" := "Place",
    "ALL" := "Allée", "SQ" := "Square", "COUR" := "Cour",
    "CHE" := "Chemin", "VOIE" := "Voie", "CITE" := "Cité",
    "VLA" := "Villa", "PONT" := "Pont", "QU" := "Quai"]

  /** `types[c_desi] || c_desi || ''`: the table's label for a known code, the code
      itself for an unknown one, and nothing when there is no code. */
  function TypeLabel(c_desi: Option<string>): (shown: string)
    ensures shown == "" <==> !Truthy(c_desi)
    ensures Truthy(c_desi) && c_desi.value in TypeLabels ==> shown == TypeLabels[c_desi.value]
    ensures Truthy(c_desi) && c_desi.value !in TypeLabels ==> shown == c_desi.value
  {
    if Truthy(c_desi) then
      if c_desi.value in TypeLabels then TypeLabels[c_desi.value] else c_desi.value
    else ""
  }

  const UnknownName := "Nom inconnu"

  /** The name a list item shows. */
  function DisplayName(v: Voie): (name: string)
    ensures Truthy(v.l_longmin) ==> name == v.l_longmin.value
    ensures !Truthy(v.l_longmin) && Truthy(v.l_courtmin) ==> name == v.l_courtmin.value
  {
    if Truthy(v.l_longmin) then v.l_longmin.value
    else if Truthy(v.l_courtmin) then v.l_courtmin.value
    else
      var kind := TypeLabel(v.c_desi);
      var nom := Or(v.l_voie, "");
      var liaison := Or(v.c_liaison, "");
      if kind != "" && nom != "" then Normalize(kind + " " + liaison + " " + nom)
      else if nom != "" then nom
      else UnknownName
  }

  /** Without a long or short name, a record with a type and a street name shows
      the words of the type label, the linking word and the street name joined by
      single spaces, with no white space at either end or twice in a row; the
      last part is the record's sort key. */
  lemma DisplayNameComposed(v: Voie)
    requires !Truthy(v.l_longmin) && !Truthy(v.l_courtmin)
    requires Truthy(v.c_desi) && Truthy(v.l_voie)
    ensures DisplayName(v) == Join(Words(TypeLabel(v.c_desi)) + Words(Or(v.c_liaison, "")) + Words(SortKey(v)))
    ensures Collapsed(DisplayName(v))
    ensures Words(DisplayName(v)) == Words(TypeLabel(v.c_desi)) + Words(Or(v.c_liaison, "")) + Words(SortKey(v))
  {
    var kind, liaison, nom := TypeLabel(v.c_desi), Or(v.c_liaison, ""), v.l_voie.value;
    assert kind != "" && Or(v.l_voie, "") == nom && nom != "";
    assert SortKey(v) == nom;
    assert DisplayName(v) == Normalize(kind + " " + liaison + " " + nom);
    NormalizeThreeParts(kind, liaison, nom);
    NormalizeCollapsed(kind + " " + liaison + " " + nom);
  }

  /** Without a long or short name, a record that lacks a type or a street name
      shows its street name, or the placeholder when it has none. */
  lemma DisplayNameFallback(v: Voie)
    requires !Truthy(v.l_longmin) && !Truthy(v.l_courtmin)
    requires !Truthy(v.c_desi) || !Truthy(v.l_voie)
    ensures DisplayName(v) == if Truthy(v.l_voie) then v.l_voie.value else UnknownName
  {
  }

  /** The long or short name, when there is one, is both the displayed name and
      the sort key. */
  lemma DisplayNameIsKeyWhenNamed(v: Voie)
    requires Truthy(v.l_longmin) || Truthy(v.l_courtmin)
    ensures DisplayName(v) == SortKey(v) && SortKey(v) != ""
  {
  }

  /** A one-word type label and a one-word street name, with no linking word,
      show as the label, one space and the street name. */
  lemma DisplayNameTwoWords(v: Voie)
    requires !Truthy(v.l_longmin) && !Truthy(v.l_courtmin) && !Truthy(v.c_liaison)
    requires IsWord(TypeLabel(v.c_desi)) && v.l_voie.Some? && IsWord(v.l_voie.value)
    ensures DisplayName(v) == TypeLabel(v.c_desi) + " " + v.l_voie.value
  {
    var kind, nom := TypeLabel(v.c_desi), v.l_voie.value;
    assert SortKey(v) == nom;
    DisplayNameComposed(v);
    WordsOfWord(kind);
    WordsOfWord(nom);
    assert Words(Or(v.c_liaison, "")) == [];
    var ws := [kind] + [] + [nom];
    assert |ws| == 2 && ws[0] == kind && ws[1..] == [nom];
    assert Join(ws) == kind + " " + nom;
  }

  /** `{c_desi: "RUE", l_voie: "Lepic"}` shows as "Rue Lepic". */
  lemma RueLepic(arrtd: Arrtd)
    ensures DisplayName(Voie(arrtd, None, None, Some("Lepic"), Some("RUE"), None)) == "Rue Lepic"
  {
    var v := Voie(arrtd, None, None, Some("Lepic"), Some("RUE"), None);
    assert TypeLabel(v.c_desi) == "Rue" by {
      assert "RUE" in TypeLabels;
    }
    assert IsWord("Rue") && IsWord("Lepic");
    DisplayNameTwoWords(v);
  }
}
