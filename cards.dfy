/**
 * Cards: read-only templates, the upgrade types, and mutable card instances
 * whose counters never go negative through their setters.
 */
module Cards {
  import opened Wrappers
  import opened Ids
  import Text

  datatype UpgradeType = Cash | Influence | Luck | Undercover

  /** The enum constants in declaration order. */
  const UpgradeTypes: seq<UpgradeType> := [Cash, Influence, Luck, Undercover]

  /** The Kotlin `name` of an enum constant. */
  function UpgradeName(u: UpgradeType): string
  {
    match u
    case Cash => "CASH"
    case Influence => "INFLUENCE"
    case Luck => "LUCK"
    case Undercover => "UNDERCOVER"
  }

  /**
   * `UpgradeType.values().first { it.name.compareTo(s, ignoreCase = true) == 0 }`:
   * the first constant whose name equals `s` ignoring case; `None` where
   * Kotlin's `first` throws.
   */
  function ParseUpgrade(s: string): (r: Option<UpgradeType>)
    ensures r.Some? ==> Text.EqualsIgnoreCase(UpgradeName(r.value), s)
    ensures r.None? <==> forall u: UpgradeType :: !Text.EqualsIgnoreCase(UpgradeName(u), s)
  {
    if Text.EqualsIgnoreCase("CASH", s) then Some(Cash)
    else if Text.EqualsIgnoreCase("INFLUENCE", s) then Some(Influence)
    else if Text.EqualsIgnoreCase("LUCK", s) then Some(Luck)
    else if Text.EqualsIgnoreCase("UNDERCOVER", s) then Some(Undercover)
    else None
  }

  /** The upgrade set of a template's upgrade names, `None` when one of the names is unknown. */
  function ParseUpgrades(names: seq<string>): (r: Option<set<UpgradeType>>)
    ensures r.Some? <==> forall i :: 0 <= i < |names| ==> ParseUpgrade(names[i]).Some?
  {
    if names == [] then Some({})
    else
      match (ParseUpgrade(names[0]), ParseUpgrades(names[1..]))
      case (Some(u), Some(rest)) =>
        assert forall i :: 1 <= i < |names| ==> names[i] == names[1..][i - 1];
        Some({u} + rest)
      case _ => None
  }

  /** A parsed upgrade set holds exactly the upgrades some name stands for. */
  lemma {:induction false} ParseUpgradesContents(names: seq<string>)
    requires ParseUpgrades(names).Some?
    ensures forall u :: u in ParseUpgrades(names).value <==> exists i :: 0 <= i < |names| && ParseUpgrade(names[i]) == Some(u)
  {
    if names != [] {
      ParseUpgradesContents(names[1..]);
      var first := ParseUpgrade(names[0]).value;
      var rest := ParseUpgrades(names[1..]).value;
      assert ParseUpgrades(names).value == {first} + rest;
      forall u | u in ParseUpgrades(names).value
        ensures exists i :: 0 <= i < |names| && ParseUpgrade(names[i]) == Some(u)
      {
        if u == first {
          assert ParseUpgrade(names[0]) == Some(u);
        } else {
          var k :| 0 <= k < |names[1..]| && ParseUpgrade(names[1..][k]) == Some(u);
          assert names[k + 1] == names[1..][k];
        }
      }
      forall u, i | 0 <= i < |names| && ParseUpgrade(names[i]) == Some(u)
        ensures u in ParseUpgrades(names).value
      {
        if i > 0 {
          assert names[1..][i - 1] == names[i];
        }
      }
    }
  }

  /** The read-only description a card is instantiated from (the fields of `CardTemplate` used here). */
  datatype CardTemplate = CardTemplate(name: string, cost: int, tier: nat, rarity: nat, vp: int, upgrades: seq<string>)

  /** A value snapshot of a card (the read-only `Card` interface). */
  datatype CardData = CardData(template: CardTemplate, vpBase: int, vpPassive: int, counter: int,
                               upgrades: set<UpgradeType>, id: Id)

  function VpTotal(c: CardData): int
  {
    c.vpBase + c.vpPassive
  }

  predicate IsDexterous(c: CardData) { Cash in c.upgrades }
  predicate IsArtful(c: CardData) { Influence in c.upgrades }
  predicate IsLucky(c: CardData) { Luck in c.upgrades }

  /** `coerceAtLeast(0)`. */
  function AtLeastZero(v: int): (r: int)
    ensures r >= 0 && r >= v && (r == v || r == 0)
  {
    if v < 0 then 0 else v
  }

  /** Kotlin's `Int.compareTo` (and the id comparison): -1, 0 or 1. */
  function CompareInt(a: int, b: int): (r: int)
    ensures r == 0 <==> a == b
    ensures r < 0 <==> a < b
    ensures -1 <= r <= 1
  {
    if a < b then -1 else if a == b then 0 else 1
  }

  /**
   * `compareTo`: by template (through the template ordering), then total vp,
   * then the number of upgrades, then the counter, and finally the id.
   */
  function CompareCards(a: CardData, b: CardData, compareTemplates: (CardTemplate, CardTemplate) -> int): (r: int)
    ensures r == 0 <==>
              compareTemplates(a.template, b.template) == 0 && VpTotal(a) == VpTotal(b)
              && |a.upgrades| == |b.upgrades| && a.counter == b.counter && a.id == b.id
  {
    var t := compareTemplates(a.template, b.template);
    if t != 0 then t
    else if VpTotal(a) != VpTotal(b) then CompareInt(VpTotal(a), VpTotal(b))
    else if |a.upgrades| != |b.upgrades| then CompareInt(|a.upgrades|, |b.upgrades|)
    else if a.counter != b.counter then CompareInt(a.counter, b.counter)
    else CompareInt(a.id, b.id)
  }

  function Sign(x: int): int
  {
    if x < 0 then -1 else if x == 0 then 0 else 1
  }

  /** Cards with different ids never compare equal, whatever the template ordering. */
  lemma {:induction false} DistinctIdsNeverEqual(a: CardData, b: CardData, compareTemplates: (CardTemplate, CardTemplate) -> int)
    requires a.id != b.id
    ensures CompareCards(a, b, compareTemplates) != 0
  {
  }

  /** With an antisymmetric template ordering, swapping the cards flips the sign of the comparison. */
  lemma CompareCardsAntisymmetric(a: CardData, b: CardData, compareTemplates: (CardTemplate, CardTemplate) -> int)
    requires Sign(compareTemplates(a.template, b.template)) == -Sign(compareTemplates(b.template, a.template))
    ensures Sign(CompareCards(a, b, compareTemplates)) == -Sign(CompareCards(b, a, compareTemplates))
  {
  }

  /** A template's upgrade names are all known, so a card can be made from it. */
  predicate Instantiable(t: CardTemplate)
  {
    ParseUpgrades(t.upgrades).Some?
  }

  /** The values of a new card made from a template under the given id. */
  function Instantiated(t: CardTemplate, id: Id): (d: CardData)
    requires Instantiable(t)
    ensures d.template == t && d.id == id && VpTotal(d) == t.vp && d.counter == 0
  {
    CardData(t, t.vp, 0, 0, ParseUpgrades(t.upgrades).value, id)
  }

  class MutableCard {
    const template: CardTemplate
    const id: Id
    var vpBase: int
    var vpPassive: int
    var counter: int
    var upgrades: set<UpgradeType>

    function Data(): (d: CardData)
      reads this
    {
      CardData(template, vpBase, vpPassive, counter, upgrades, id)
    }

    /** The internal constructor stores its arguments as given, without clamping. */
    constructor (template: CardTemplate, vpBase: int, vpPassive: int, counter: int, upgrades: set<UpgradeType>, id: Id)
      ensures Data() == CardData(template, vpBase, vpPassive, counter, upgrades, id)
    {
      this.template := template;
      this.id := id;
      this.vpBase := vpBase;
      this.vpPassive := vpPassive;
      this.counter := counter;
      this.upgrades := upgrades;
    }

    /**
     * A card instantiated from a template: the template's vp, no passive vp,
     * no counter, the parsed upgrades and a new id.  An unknown upgrade name
     * is an error (Kotlin's `first` throws), and then no card is made.
     */
    static method FromTemplate(template: CardTemplate, ids: Uuids) returns (r: Option<MutableCard>)
      modifies ids
      ensures r.Some? <==> Instantiable(template)
      ensures r.Some? ==> fresh(r.value)
      ensures r.Some? ==> r.value.Data() == Instantiated(template, old(ids.next))
      ensures ids.next == if r.Some? then old(ids.next) + 1 else old(ids.next)
    {
      var parsed := ParseUpgrades(template.upgrades);
      if parsed.None? {
        return None;
      }
      var id := ids.Fresh();
      var c := new MutableCard(template, template.vp, 0, 0, parsed.value, id);
      r := Some(c);
    }

    /** The cloning constructor: the same template and values under a new id. */
    static method Clone(other: MutableCard, ids: Uuids) returns (c: MutableCard)
      modifies ids
      ensures fresh(c)
      ensures c.Data() == other.Data().(id := old(ids.next))
      ensures ids.next == old(ids.next) + 1
    {
      var id := ids.Fresh();
      c := new MutableCard(other.template, other.vpBase, other.vpPassive, other.counter, other.upgrades, id);
    }

    method SetVpBase(v: int)
      modifies this
      ensures vpBase == AtLeastZero(v)
      ensures vpPassive == old(vpPassive) && counter == old(counter) && upgrades == old(upgrades)
    {
      vpBase := AtLeastZero(v);
    }

    method SetVpPassive(v: int)
      modifies this
      ensures vpPassive == AtLeastZero(v)
      ensures vpBase == old(vpBase) && counter == old(counter) && upgrades == old(upgrades)
    {
      vpPassive := AtLeastZero(v);
    }

    method SetCounter(v: int)
      modifies this
      ensures counter == AtLeastZero(v)
      ensures vpBase == old(vpBase) && vpPassive == old(vpPassive) && upgrades == old(upgrades)
    {
      counter := AtLeastZero(v);
    }

    /**
     * `copy(...)`: a new card object with the same template; every other field
     * is the argument given, which Kotlin defaults to the current value, and
     * the values are stored without clamping.
     */
    method Copy(id: Id, vpBase: int, vpPassive: int, counter: int, upgrades: set<UpgradeType>) returns (c: MutableCard)
      ensures fresh(c)
      ensures c.Data() == CardData(template, vpBase, vpPassive, counter, upgrades, id)
    {
      c := new MutableCard(template, vpBase, vpPassive, counter, upgrades, id);
    }
  }

  /** A template card's flags follow the names in its template, read ignoring case. */
  lemma {:induction false} TemplateFlags(template: CardTemplate)
    requires ParseUpgrades(template.upgrades).Some?
    ensures var d := CardData(template, template.vp, 0, 0, ParseUpgrades(template.upgrades).value, 0);
            (IsDexterous(d) <==> exists i :: 0 <= i < |template.upgrades| && Text.EqualsIgnoreCase("CASH", template.upgrades[i]))
            && (IsArtful(d) <==> exists i :: 0 <= i < |template.upgrades| && Text.EqualsIgnoreCase("INFLUENCE", template.upgrades[i]))
            && (IsLucky(d) <==> exists i :: 0 <= i < |template.upgrades| && Text.EqualsIgnoreCase("LUCK", template.upgrades[i]))
  {
    var names := template.upgrades;
    ParseUpgradesContents(names);
    forall i | 0 <= i < |names|
      ensures ParseUpgrade(names[i]) == Some(Cash) <==> Text.EqualsIgnoreCase("CASH", names[i])
      ensures ParseUpgrade(names[i]) == Some(Influence) <==> Text.EqualsIgnoreCase("INFLUENCE", names[i])
      ensures ParseUpgrade(names[i]) == Some(Luck) <==> Text.EqualsIgnoreCase("LUCK", names[i])
    {
      DistinctNames(names[i]);
    }
  }

  /** No name equals two different upgrade names ignoring case. */
  lemma DistinctNames(s: string)
    ensures !(Text.EqualsIgnoreCase("CASH", s) && Text.EqualsIgnoreCase("INFLUENCE", s))
    ensures !(Text.EqualsIgnoreCase("CASH", s) && Text.EqualsIgnoreCase("LUCK", s))
    ensures !(Text.EqualsIgnoreCase("INFLUENCE", s) && Text.EqualsIgnoreCase("LUCK", s))
  {
    if Text.EqualsIgnoreCase("CASH", s) {
      DiffersAtFirst("LUCK", s);
    }
  }

  /** Names whose first letters differ ignoring case are not equal ignoring case. */
  lemma DiffersAtFirst(a: string, s: string)
    requires |a| > 0 && |s| > 0 && Text.Lower(a[0]) != Text.Lower(s[0])
    ensures !Text.EqualsIgnoreCase(a, s)
  {
  }
}
