/**
 * The fixed two-level service taxonomy: ten top-level categories, and for each
 * a numbered entry with its numbered subcategories. Read-only reference data.
 */
module Categories {
  import opened Strings

  datatype Subcategory = Subcategory(id: string, name: string)

  datatype ServiceCategory = ServiceCategory(id: string, name: string, subcategories: seq<Subcategory>)

  /** Top-level service categories, in display order. */
  const TopCategories: seq<string> := [
    "Električne instalacije",
    "Vodoinstalacije",
    "Stolarija / Vrata / Prozori",
    "Bravarija",
    "Kupaonica",
    "Kuhinja",
    "Bijela tehnika (servis)",
    "Klima / Grijanje",
    "Zidovi / Strop",
    "Pomoć u kući / Sitni radovi"
  ]

  /** All service categories with their subcategories, in id order. */
  const ServiceCategories: seq<ServiceCategory> := [
    ElectricalInstallations,
    Plumbing,
    Joinery,
    Locksmithing,
    Bathroom,
    Kitchen,
    Appliances,
    AirConditioningHeating,
    WallsCeiling,
    HomeHelp
  ]

  // Each entry's name is its number and ". " followed by its title: the
  // same text, written in two parts.

  const ElectricalInstallations := ServiceCategory("1", "1. " + "Električne instalacije", [
      Subcategory("1.1", "Ne radi utičnica"),
      Subcategory("1.2", "Ne radi svjetlo"),
      Subcategory("1.3", "Zamjena prekidača ili utičnice"),
      Subcategory("1.4", "Postavljanje rasvjete/lustre"),
      Subcategory("1.5", "Problemi s osiguračima")
    ])

  const Plumbing := ServiceCategory("2", "2. " + "Vodoinstalacije", [
      Subcategory("2.1", "Curi voda (sudoper, sifon, WC...)"),
      Subcategory("2.2", "Začepljenje odvoda"),
      Subcategory("2.3", "Zamjena slavine ili tuša"),
      Subcategory("2.4", "Problemi s kotlićem"),
      Subcategory("2.5", "Ugradnja perilice/sušilice")
    ])

  const Joinery := ServiceCategory("3", "3. " + "Stolarija / Vrata / Prozori", [
      Subcategory("3.1", "Podešavanje vrata/prozora"),
      Subcategory("3.2", "Zamjena brava/kvaka"),
      Subcategory("3.3", "Popravak namještaja"),
      Subcategory("3.4", "Montaža kuhinje/ormara")
    ])

  const Locksmithing := ServiceCategory("4", "4. " + "Bravarija", [
      Subcategory("4.1", "Otvaranje zaključanih vrata"),
      Subcategory("4.2", "Zamjena cilindara"),
      Subcategory("4.3", "Popravak rešetki, ograda")
    ])

  const Bathroom := ServiceCategory("5", "5. " + "Kupaonica", [
      Subcategory("5.1", "Silikoniranje tuša/kade"),
      Subcategory("5.2", "Zamjena WC školjke"),
      Subcategory("5.3", "Ugradnja tuš kabine")
    ])

  const Kitchen := ServiceCategory("6", "6. " + "Kuhinja", [
      Subcategory("6.1", "Popravak ormarića"),
      Subcategory("6.2", "Zamjena šarki / vodilica"),
      Subcategory("6.3", "Sitne montaže i dorade")
    ])

  const Appliances := ServiceCategory("7", "7. " + "Bijela tehnika (servis)", [
      Subcategory("7.1", "Perilica rublja"),
      Subcategory("7.2", "Sušilica"),
      Subcategory("7.3", "Perilica suđa"),
      Subcategory("7.4", "Hladnjak")
    ])

  const AirConditioningHeating := ServiceCategory("8", "8. " + "Klima / Grijanje", [
      Subcategory("8.1", "Servis klime"),
      Subcategory("8.2", "Montaža klime"),
      Subcategory("8.3", "Radijatori / grijanje")
    ])

  const WallsCeiling := ServiceCategory("9", "9. " + "Zidovi / Strop", [
      Subcategory("9.1", "Zakrpavanje rupa"),
      Subcategory("9.2", "Krečenje manjih površina"),
      Subcategory("9.3", "Postavljanje polica, slika")
    ])

  const HomeHelp := ServiceCategory("10", "10. " + "Pomoć u kući / Sitni radovi", [
      Subcategory("10.1", "Sastavljanje namještaja (IKEA i sl.)"),
      Subcategory("10.2", "Vješanje TV-a na zid"),
      Subcategory("10.3", "Montaža zavjesa, roleta")
    ])

  function SubcategoryCount(cats: seq<ServiceCategory>): nat {
    if cats == [] then 0 else |cats[0].subcategories| + SubcategoryCount(cats[1..])
  }

  /** There are ten top-level names, no two the same, each starting with a letter. */
  lemma TopCategoriesDistinct()
    ensures |TopCategories| == 10
    ensures forall i, j :: 0 <= i < j < |TopCategories| ==> TopCategories[i] != TopCategories[j]
    ensures forall i :: 0 <= i < |TopCategories| ==>
      TopCategories[i] != [] && !IsDigit(TopCategories[i][0]) && !IsSpace(TopCategories[i][0])
  {
  }

  /**
   * Entry number `n` of the taxonomy: id "n", named "n. " followed by its
   * top-level name, with at least three subcategories numbered "n.1", "n.2", ...
   */
  ghost predicate WellFormedEntry(c: ServiceCategory, n: nat, top: string) {
    && c.id == NatToString(n)
    && c.name == c.id + ". " + top
    && |c.subcategories| >= 3
    && forall k :: 0 <= k < |c.subcategories| ==> c.subcategories[k].id == c.id + "." + NatToString(k + 1)
  }

  /** The decimal numerals the taxonomy uses. */
  lemma SmallNumerals()
    ensures NatToString(1) == "1" && NatToString(2) == "2" && NatToString(3) == "3"
    ensures NatToString(4) == "4" && NatToString(5) == "5" && NatToString(6) == "6"
    ensures NatToString(7) == "7" && NatToString(8) == "8" && NatToString(9) == "9"
    ensures NatToString(10) == "10"
  {
    assert NatToString(1) == [DigitChar(1)];
    assert NatToString(10) == NatToString(1) + [DigitChar(0)];
  }

  lemma ElectricalInstallationsNamed()
    ensures ElectricalInstallations.name == "1" + ". " + TopCategories[0]
  {
    assert "1. " == "1" + ". ";
  }

  lemma ElectricalInstallationsWellFormed()
    ensures WellFormedEntry(ElectricalInstallations, 1, TopCategories[0])
  {
    SmallNumerals();
    ElectricalInstallationsNamed();
  }

  lemma PlumbingNamed()
    ensures Plumbing.name == "2" + ". " + TopCategories[1]
  {
    assert "2. " == "2" + ". ";
  }

  lemma PlumbingWellFormed()
    ensures WellFormedEntry(Plumbing, 2, TopCategories[1])
  {
    SmallNumerals();
    PlumbingNamed();
  }

  lemma JoineryNamed()
    ensures Joinery.name == "3" + ". " + TopCategories[2]
  {
    assert "3. " == "3" + ". ";
  }

  lemma JoineryWellFormed()
    ensures WellFormedEntry(Joinery, 3, TopCategories[2])
  {
    SmallNumerals();
    JoineryNamed();
  }

  lemma LocksmithingNamed()
    ensures Locksmithing.name == "4" + ". " + TopCategories[3]
  {
    assert "4. " == "4" + ". ";
  }

  lemma LocksmithingWellFormed()
    ensures WellFormedEntry(Locksmithing, 4, TopCategories[3])
  {
    SmallNumerals();
    LocksmithingNamed();
  }

  lemma BathroomNamed()
    ensures Bathroom.name == "5" + ". " + TopCategories[4]
  {
    assert "5. " == "5" + ". ";
  }

  lemma BathroomWellFormed()
    ensures WellFormedEntry(Bathroom, 5, TopCategories[4])
  {
    SmallNumerals();
    BathroomNamed();
  }

  lemma KitchenNamed()
    ensures Kitchen.name == "6" + ". " + TopCategories[5]
  {
    assert "6. " == "6" + ". ";
  }

  lemma KitchenWellFormed()
    ensures WellFormedEntry(Kitchen, 6, TopCategories[5])
  {
    SmallNumerals();
    KitchenNamed();
  }

  lemma AppliancesNamed()
    ensures Appliances.name == "7" + ". " + TopCategories[6]
  {
    assert "7. " == "7" + ". ";
  }

  lemma AppliancesWellFormed()
    ensures WellFormedEntry(Appliances, 7, TopCategories[6])
  {
    SmallNumerals();
    AppliancesNamed();
  }

  lemma AirConditioningHeatingNamed()
    ensures AirConditioningHeating.name == "8" + ". " + TopCategories[7]
  {
    assert "8. " == "8" + ". ";
  }

  lemma AirConditioningHeatingWellFormed()
    ensures WellFormedEntry(AirConditioningHeating, 8, TopCategories[7])
  {
    SmallNumerals();
    AirConditioningHeatingNamed();
  }

  lemma WallsCeilingNamed()
    ensures WallsCeiling.name == "9" + ". " + TopCategories[8]
  {
    assert "9. " == "9" + ". ";
  }

  lemma WallsCeilingWellFormed()
    ensures WellFormedEntry(WallsCeiling, 9, TopCategories[8])
  {
    SmallNumerals();
    WallsCeilingNamed();
  }

  lemma HomeHelpNamed()
    ensures HomeHelp.name == "10" + ". " + TopCategories[9]
  {
    assert "10. " == "10" + ". ";
  }

  lemma HomeHelpWellFormed()
    ensures WellFormedEntry(HomeHelp, 10, TopCategories[9])
  {
    SmallNumerals();
    HomeHelpNamed();
  }

  /**
   * The whole taxonomy: ten entries, entry i is number i+1 and is named after
   * the i-th top-level category, 36 subcategories in all.
   */
  lemma TaxonomyWellFormed()
    ensures |ServiceCategories| == |TopCategories| == 10
    ensures forall i :: 0 <= i < |ServiceCategories| ==> WellFormedEntry(ServiceCategories[i], i + 1, TopCategories[i])
    ensures SubcategoryCount(ServiceCategories) == 36
  {
    ElectricalInstallationsWellFormed();
    PlumbingWellFormed();
    JoineryWellFormed();
    LocksmithingWellFormed();
    BathroomWellFormed();
    KitchenWellFormed();
    AppliancesWellFormed();
    AirConditioningHeatingWellFormed();
    WallsCeilingWellFormed();
    HomeHelpWellFormed();
    TaxonomySize();
  }

  /** The subcategories, counted entry by entry from the last. */
  lemma TaxonomySize()
    ensures SubcategoryCount(ServiceCategories) == 36
  {
    assert ServiceCategories[10..] == [];
    assert SubcategoryCount(ServiceCategories[9..]) == 3;
    assert SubcategoryCount(ServiceCategories[8..]) == 6;
    assert SubcategoryCount(ServiceCategories[7..]) == 9;
    assert SubcategoryCount(ServiceCategories[6..]) == 13;
    assert SubcategoryCount(ServiceCategories[5..]) == 16;
    assert SubcategoryCount(ServiceCategories[4..]) == 19;
    assert SubcategoryCount(ServiceCategories[3..]) == 22;
    assert SubcategoryCount(ServiceCategories[2..]) == 26;
    assert SubcategoryCount(ServiceCategories[1..]) == 31;
    assert SubcategoryCount(ServiceCategories[0..]) == 36;
    assert ServiceCategories[0..] == ServiceCategories;
  }

  /** In "a.b" with a made of digits, the first '.' is the one after a. */
  lemma FirstDot(a: string, b: string)
    requires forall k :: 0 <= k < |a| ==> IsDigit(a[k])
    ensures (a + "." + b)[|a|] == '.'
    ensures forall k :: 0 <= k < |a| ==> (a + "." + b)[k] != '.'
  {
  }

  /** "a.b" determines a and b when both are digit strings. */
  lemma {:induction false} DottedInjective(a: string, b: string, c: string, d: string)
    requires forall k :: 0 <= k < |a| ==> IsDigit(a[k])
    requires forall k :: 0 <= k < |c| ==> IsDigit(c[k])
    requires a + "." + b == c + "." + d
    ensures a == c && b == d
  {
    var s := a + "." + b;
    FirstDot(a, b);
    FirstDot(c, d);
    assert a == s[..|a|] == c;
    assert b == s[|a| + 1..] == d;
  }

  /** No two subcategories anywhere in the taxonomy share an id. */
  lemma SubcategoryIdsUnique(i: nat, k: nat, j: nat, l: nat)
    requires i < |ServiceCategories| && k < |ServiceCategories[i].subcategories|
    requires j < |ServiceCategories| && l < |ServiceCategories[j].subcategories|
    requires (i, k) != (j, l)
    ensures ServiceCategories[i].subcategories[k].id != ServiceCategories[j].subcategories[l].id
  {
    TaxonomyWellFormed();
    if ServiceCategories[i].subcategories[k].id == ServiceCategories[j].subcategories[l].id {
      DottedInjective(NatToString(i + 1), NatToString(k + 1), NatToString(j + 1), NatToString(l + 1));
      NatToStringInjective(i + 1, j + 1);
      NatToStringInjective(k + 1, l + 1);
    }
  }
}
