/** The status bits and small predicates of a footprint (MODULE in
    pcbnew/class_module.h): m_ModuleStatus is a C int used as a set of
    four flag bits, each with a setter that turns only its own bit on or
    off and a getter that tests it. */
module ModuleStatus {
  import opened Layers

  /** The m_ModuleStatus bits. */
  const ModuleIsLocked: bv32 := 0x01
  const ModuleIsPlaced: bv32 := 0x02
  const ModuleToPlace: bv32 := 0x04
  const ModulePadsLocked: bv32 := 0x08

  predicate IsStatusBit(m: bv32) {
    m == ModuleIsLocked || m == ModuleIsPlaced || m == ModuleToPlace || m == ModulePadsLocked
  }

  /** `status |= m` when on, `status &= ~m` otherwise: the bits of m
      follow `on` and every other bit is kept. */
  function WithBit(status: bv32, m: bv32, on: bool): (r: bv32)
    ensures r & !m == status & !m
    ensures r & m == (if on then m else 0)
  {
    if on then status | m else status & !m
  }

  /** The getters: a bit is set iff its mask survives the and. */
  predicate HasBit(status: bv32, m: bv32) { status & m != 0 }

  /** Setting a flag and reading it back gives the value set. */
  lemma SetThenGet(status: bv32, m: bv32, on: bool)
    requires IsStatusBit(m)
    ensures HasBit(WithBit(status, m, on), m) == on
  {
  }

  /** Setting a flag leaves every other flag reading as before. */
  lemma SetKeepsOthers(status: bv32, m: bv32, other: bv32, on: bool)
    requires IsStatusBit(m) && IsStatusBit(other) && m != other
    ensures HasBit(WithBit(status, m, on), other) == HasBit(status, other)
  {
    DisjointMasks(m, other);
    BitOfRest(status, WithBit(status, m, on), m, other);
  }

  /** The four status bits are pairwise disjoint. */
  lemma DisjointMasks(m: bv32, other: bv32)
    requires IsStatusBit(m) && IsStatusBit(other) && m != other
    ensures other & !m == other
  {
  }

  /** Two values that agree outside m agree on any mask disjoint from m. */
  lemma BitOfRest(status: bv32, r: bv32, m: bv32, other: bv32)
    requires r & !m == status & !m && other & !m == other
    ensures r & other == status & other
  {
    calc {
      r & other;
      == r & (other & !m);
      == (r & !m) & other;
      == (status & !m) & other;
      == status & (other & !m);
      == status & other;
    }
  }

  /** "net tie", the keyword prefix that marks a net-tie footprint. */
  const NetTiePrefix: string := "net tie"

  predicate StartsWith(s: string, prefix: string) {
    |prefix| <= |s| && s[..|prefix|] == prefix
  }

  /** The MODULE fields these members touch. */
  class Module {
    var moduleStatus: bv32
    var arflag: int
    var keywords: string
    var layer: int

    constructor (aKeywords: string, aLayer: int)
      ensures moduleStatus == 0 && arflag == 0 && keywords == aKeywords && layer == aLayer
    {
      moduleStatus, arflag, keywords, layer := 0, 0, aKeywords, aLayer;
    }

    function IsLocked(): bool reads this { HasBit(moduleStatus, ModuleIsLocked) }
    function IsPlaced(): bool reads this { HasBit(moduleStatus, ModuleIsPlaced) }
    function NeedsPlaced(): bool reads this { HasBit(moduleStatus, ModuleToPlace) }
    function PadsLocked(): bool reads this { HasBit(moduleStatus, ModulePadsLocked) }

    method SetLocked(isLocked: bool)
      modifies this
      ensures moduleStatus == WithBit(old(moduleStatus), ModuleIsLocked, isLocked)
      ensures IsLocked() == isLocked
      ensures arflag == old(arflag) && keywords == old(keywords) && layer == old(layer)
    {
      if isLocked {
        moduleStatus := moduleStatus | ModuleIsLocked;
      } else {
        moduleStatus := moduleStatus & !ModuleIsLocked;
      }
    }

    method SetIsPlaced(isPlaced: bool)
      modifies this
      ensures moduleStatus == WithBit(old(moduleStatus), ModuleIsPlaced, isPlaced)
      ensures IsPlaced() == isPlaced
      ensures arflag == old(arflag) && keywords == old(keywords) && layer == old(layer)
    {
      if isPlaced {
        moduleStatus := moduleStatus | ModuleIsPlaced;
      } else {
        moduleStatus := moduleStatus & !ModuleIsPlaced;
      }
    }

    method SetNeedsPlaced(needsPlaced: bool)
      modifies this
      ensures moduleStatus == WithBit(old(moduleStatus), ModuleToPlace, needsPlaced)
      ensures NeedsPlaced() == needsPlaced
      ensures arflag == old(arflag) && keywords == old(keywords) && layer == old(layer)
    {
      if needsPlaced {
        moduleStatus := moduleStatus | ModuleToPlace;
      } else {
        moduleStatus := moduleStatus & !ModuleToPlace;
      }
    }

    method SetPadsLocked(aPadsLocked: bool)
      modifies this
      ensures moduleStatus == WithBit(old(moduleStatus), ModulePadsLocked, aPadsLocked)
      ensures PadsLocked() == aPadsLocked
      ensures arflag == old(arflag) && keywords == old(keywords) && layer == old(layer)
    {
      if aPadsLocked {
        moduleStatus := moduleStatus | ModulePadsLocked;
      } else {
        moduleStatus := moduleStatus & !ModulePadsLocked;
      }
    }

    method IncrementFlag()
      modifies this
      ensures arflag == old(arflag) + 1
      ensures moduleStatus == old(moduleStatus) && keywords == old(keywords) && layer == old(layer)
    {
      arflag := arflag + 1;
    }

    /** IsNetTie: the keywords start with "net tie". */
    function IsNetTie(): (r: bool)
      reads this
      ensures r <==> StartsWith(keywords, NetTiePrefix)
      ensures r ==> keywords == NetTiePrefix + keywords[|NetTiePrefix|..]
    {
      |keywords| >= |NetTiePrefix| && keywords[..|NetTiePrefix|] == NetTiePrefix
    }

    /** IsFlipped: the footprint is on the back copper layer. */
    predicate IsFlipped()
      reads this
    {
      layer == B_Cu
    }
  }

  /** Keywords that begin with "net tie" mark a net tie whatever follows,
      and shorter keywords never do. */
  lemma NetTieKeywords(rest: string, short: string)
    requires |short| < |NetTiePrefix|
    ensures StartsWith(NetTiePrefix + rest, NetTiePrefix)
    ensures !StartsWith(short, NetTiePrefix)
  {
    assert (NetTiePrefix + rest)[..|NetTiePrefix|] == NetTiePrefix;
  }
}
