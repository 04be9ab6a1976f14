/**
 * Buildings: blueprints and the mutable buildings constructed from them.
 */
module Buildings {
  import opened Ids
  import Cards

  /** The construction price of a blueprint. */
  datatype BuildCost = BuildCost(cash: int, influence: int)

  /** The fields of a blueprint used here. */
  datatype Blueprint = Blueprint(name: string, buildCost: BuildCost)

  /** A value snapshot of a building (the read-only `Building` interface). */
  datatype BuildingData = BuildingData(blueprint: Blueprint, id: Id, vpBase: int, vpPassive: int,
                                       counter: int, isActivated: bool)

  function VpTotal(b: BuildingData): int
  {
    b.vpBase + b.vpPassive
  }

  /** `compareTo`: by blueprint (through the blueprint ordering), then by id. */
  function CompareBuildings(a: BuildingData, b: BuildingData, compareBlueprints: (Blueprint, Blueprint) -> int): (r: int)
    ensures compareBlueprints(a.blueprint, b.blueprint) != 0 ==> r == compareBlueprints(a.blueprint, b.blueprint)
    ensures compareBlueprints(a.blueprint, b.blueprint) == 0 ==> r == Cards.CompareInt(a.id, b.id)
  {
    var c := compareBlueprints(a.blueprint, b.blueprint);
    if c != 0 then c else Cards.CompareInt(a.id, b.id)
  }

  /** Two buildings compare equal only when their blueprints compare equal and their ids are equal. */
  lemma {:induction false} CompareBuildingsZero(a: BuildingData, b: BuildingData, compareBlueprints: (Blueprint, Blueprint) -> int)
    ensures CompareBuildings(a, b, compareBlueprints) == 0 <==> compareBlueprints(a.blueprint, b.blueprint) == 0 && a.id == b.id
  {
    var c := compareBlueprints(a.blueprint, b.blueprint);
    if c == 0 {
      assert CompareBuildings(a, b, compareBlueprints) == Cards.CompareInt(a.id, b.id);
    }
  }

  class MutableBuilding {
    const blueprint: Blueprint
    const id: Id
    var vpBase: int
    var vpPassive: int
    var counter: int
    var isActivated: bool

    function Data(): (d: BuildingData)
      reads this
    {
      BuildingData(blueprint, id, vpBase, vpPassive, counter, isActivated)
    }

    /** The internal constructor stores its arguments as given, without clamping. */
    constructor (blueprint: Blueprint, id: Id, vpBase: int, vpPassive: int, counter: int, isActivated: bool)
      ensures Data() == BuildingData(blueprint, id, vpBase, vpPassive, counter, isActivated)
    {
      this.blueprint := blueprint;
      this.id := id;
      this.vpBase := vpBase;
      this.vpPassive := vpPassive;
      this.counter := counter;
      this.isActivated := isActivated;
    }

    /** A new building from a blueprint: no vp, no counter, not activated, a new id. */
    static method FromBlueprint(blueprint: Blueprint, ids: Uuids) returns (b: MutableBuilding)
      modifies ids
      ensures fresh(b)
      ensures b.Data() == BuildingData(blueprint, old(ids.next), 0, 0, 0, false)
      ensures ids.next == old(ids.next) + 1
    {
      var id := ids.Fresh();
      b := new MutableBuilding(blueprint, id, 0, 0, 0, false);
    }

    method SetVpBase(v: int)
      modifies this
      ensures vpBase == Cards.AtLeastZero(v)
      ensures vpPassive == old(vpPassive) && counter == old(counter) && isActivated == old(isActivated)
    {
      vpBase := Cards.AtLeastZero(v);
    }

    method SetVpPassive(v: int)
      modifies this
      ensures vpPassive == Cards.AtLeastZero(v)
      ensures vpBase == old(vpBase) && counter == old(counter) && isActivated == old(isActivated)
    {
      vpPassive := Cards.AtLeastZero(v);
    }

    method SetCounter(v: int)
      modifies this
      ensures counter == Cards.AtLeastZero(v)
      ensures vpBase == old(vpBase) && vpPassive == old(vpPassive) && isActivated == old(isActivated)
    {
      counter := Cards.AtLeastZero(v);
    }

    method SetActivated(v: bool)
      modifies this
      ensures Data() == old(Data()).(isActivated := v)
    {
      isActivated := v;
    }

    /**
     * `copy(...)`: a new building with the same blueprint and always the same
     * passive vp; id, base vp, counter and activation are the arguments given
     * (by default the current values), stored without clamping.
     */
    method Copy(id: Id, vpBase: int, counter: int, isActivated: bool) returns (b: MutableBuilding)
      ensures fresh(b)
      ensures b.Data() == BuildingData(blueprint, id, vpBase, this.vpPassive, counter, isActivated)
    {
      b := new MutableBuilding(blueprint, id, vpBase, vpPassive, counter, isActivated);
    }
  }

  /** The values of a list of buildings, in order. */
  function BuildingsData(bs: seq<MutableBuilding>): (r: seq<BuildingData>)
    reads set b | b in bs
    ensures |r| == |bs|
    ensures forall i :: 0 <= i < |bs| ==> r[i] == bs[i].Data()
  {
    if bs == [] then [] else [bs[0].Data()] + BuildingsData(bs[1..])
  }
}
