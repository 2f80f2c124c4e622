/** The board layer identifiers (PCB_LAYER_ID, in the order of KiCad's
    layers_id_colors_and_visibility.h): copper F_Cu = 0 to B_Cu = 31, then
    the technical and user layers. */
module Layers {

  const F_Cu: int := 0
  const B_Cu: int := 31
  const B_Adhes: int := 32
  const F_Adhes: int := 33
  const B_Paste: int := 34
  const F_Paste: int := 35
  const B_SilkS: int := 36
  const F_SilkS: int := 37
  const B_Mask: int := 38
  const F_Mask: int := 39
  const Dwgs_User: int := 40
  const Cmts_User: int := 41
  const Eco1_User: int := 42
  const Eco2_User: int := 43
  const Edge_Cuts: int := 44
  const Margin: int := 45
  const B_CrtYd: int := 46
  const F_CrtYd: int := 47
  const B_Fab: int := 48
  const F_Fab: int := 49

  /** PCB_LAYER_ID_COUNT: the ids an LSET can hold are 0 .. LayerCount - 1. */
  const LayerCount: int := 50

  /** IsCopperLayer. */
  predicate IsCopperLayer(layer: int) { F_Cu <= layer <= B_Cu }

  /** LSET::AllCuMask(). */
  function AllCuMask(): (r: set<int>)
    ensures forall l :: l in r <==> IsCopperLayer(l)
  {
    var ids := seq(B_Cu + 1, i => i);
    assert forall l :: IsCopperLayer(l) ==> ids[l] == l;
    set l | l in ids
  }
}
