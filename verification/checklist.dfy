/** The personalised evacuation checklist. */
module Checklist {
  import opened Seqs

  /** The items every checklist starts with, in this order. */
  const Base: seq<string> := [
    "Water (1 gallon per person per day)",
    "Non-perishable food (3-day supply)",
    "Phone charger and power bank",
    "Important documents (ID, insurance, etc.)",
    "First aid kit"
  ]

  const PetItem: string := "Pet food, leash, carrier"
  const ChildItem: string := "Baby formula, diapers, comfort toy"
  const CareItem: string := "Medications, glasses, medical devices"

  /** Every item a checklist can hold, in the order a checklist lists them. */
  const AllItems: seq<string> := Base + [PetItem, ChildItem, CareItem]

  function Flag(b: bool): nat {
    if b then 1 else 0
  }

  function Optional(present: bool, item: string): seq<string> {
    if present then [item] else []
  }

  /** The optional part of a checklist: the chosen items among the three, in their fixed order. */
  function Added(pets: bool, kids: bool, elderly: bool): seq<string> {
    Optional(pets, PetItem) + Optional(kids, ChildItem) + Optional(elderly, CareItem)
  }

  /** The three optional items differ from each other and from every base item. */
  lemma ItemsDistinct()
    ensures PetItem !in Base && ChildItem !in Base && CareItem !in Base
    ensures PetItem != ChildItem && PetItem != CareItem && ChildItem != CareItem
  {
  }

  lemma AddedShape(pets: bool, kids: bool, elderly: bool)
    ensures |Added(pets, kids, elderly)| == Flag(pets) + Flag(kids) + Flag(elderly)
    ensures PetItem in Added(pets, kids, elderly) <==> pets
    ensures ChildItem in Added(pets, kids, elderly) <==> kids
    ensures CareItem in Added(pets, kids, elderly) <==> elderly
    ensures forall x :: x in Added(pets, kids, elderly) ==> x !in Base
  {
    ItemsDistinct();
  }

  /** The optional items keep their fixed order. */
  lemma AddedInOrder(pets: bool, kids: bool, elderly: bool)
    ensures IsSubsequence(Added(pets, kids, elderly), [PetItem, ChildItem, CareItem])
  {
    SubsequenceKeepOrDrop(elderly, CareItem, [], []);
    SubsequenceKeepOrDrop(kids, ChildItem, Optional(elderly, CareItem), [CareItem]);
    SubsequenceKeepOrDrop(pets, PetItem, Optional(kids, ChildItem) + Optional(elderly, CareItem), [ChildItem, CareItem]);
    assert Added(pets, kids, elderly) == Optional(pets, PetItem) + (Optional(kids, ChildItem) + Optional(elderly, CareItem));
  }

  /** The base list, then one item for each of the three answers that is yes. */
  function Build(pets: bool, kids: bool, elderly: bool): (r: seq<string>)
    ensures |r| == |Base| + Flag(pets) + Flag(kids) + Flag(elderly)
    ensures r[..|Base|] == Base
    ensures PetItem in r <==> pets
    ensures ChildItem in r <==> kids
    ensures CareItem in r <==> elderly
    ensures IsSubsequence(r, AllItems)
  {
    var checklist := Base;
    var checklist := if pets then checklist + [PetItem] else checklist;
    var checklist := if kids then checklist + [ChildItem] else checklist;
    var checklist := if elderly then checklist + [CareItem] else checklist;
    assert checklist == Base + Added(pets, kids, elderly);
    AddedShape(pets, kids, elderly);
    AddedInOrder(pets, kids, elderly);
    SubsequenceUnderPrefix(Base, Added(pets, kids, elderly), [PetItem, ChildItem, CareItem]);
    checklist
  }

}
